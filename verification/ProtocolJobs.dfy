/**
 The steps on one placed allocation: in a valid state no statement of theirs raises, so each has the
 net effect of one atomic update, and each keeps the invariant.
 */
module ProtocolJobs {
  import opened Allocations
  import opened Options
  import opened Protocol
  import opened ProtocolLocal
  import opened Repository
  import opened Tables
  import opened Workers

  /** New contents for one allocation row, its address, and some units. */
  datatype Change = Change(row: Allocation, address: IpAddress, units: map<string, ComputeUnit>)

  /** The tables after all of a change at once. */
  function Rewritten(d: Database, a: string, change: Change): Database {
    d.(units := d.units + change.units,
       allocations := d.allocations[a := change.row],
       pool := d.pool[change.row.ipAddress := change.address])
  }

  function Owned(unit: ComputeUnit, status: UnitStatus, owner: Option<string>): ComputeUnit {
    unit.(status := status, allocationId := owner)
  }

  /** The schema accepts any new row of a placed allocation that keeps its identity. */
  lemma PlacedRowIsAccepted(s: State, d: Database, a: string, row: Allocation)
    requires Inv(s) && a in s.db.allocations && s.db.allocations[a].computeId.Some?
    requires d.allocations == s.db.allocations && d.units.Keys == s.db.units.Keys && d.servers.Keys == s.db.servers.Keys
    requires row.loginUser == s.db.allocations[a].loginUser && row.ipAddress == s.db.allocations[a].ipAddress
    requires row.computeId.Some? ==> Own(s, a, row.computeId.value)
    requires d.KnownServer(row.currentHost)
    ensures d.AcceptsAllocation(a, row)
  {
    hide Own, UnitOk, AddressOk, InFlightOk, JobsOk, AwaitsScale, ServersOk;
    assert AllocationOk(s, a);
    OwnIsUnit(s, a);
    forall b | b in d.allocations && b != a ensures Database.Compatible(row, d.allocations[b]) {
      var other := s.db.allocations[b];
      assert AllocationOk(s, b);
      if other.computeId.Some? {
        assert Holds(s, b, other.computeId.value);
        OtherUnitNotOwn(s, a, b, other.computeId.value);
      }
    }
  }

  lemma OwnIsUnit(s: State, a: string)
    ensures forall c :: Own(s, a, c) ==> c in s.db.units
  {
  }

  lemma OtherUnitNotOwn(s: State, a: string, b: string, c: string)
    requires Inv(s) && a in s.db.allocations && b in s.db.allocations && a != b && Holds(s, b, c)
    ensures !Own(s, a, c)
  {
    hide AllocationOk, UnitOk, AddressOk, InFlightOk, JobsOk, ServersOk;
    OthersNotOwn(s, a, b, c);
  }

  /** What a rewritten unit must look like: free and disowned, or still in the hands of the allocation. */
  ghost predicate OwnUnitOk(s: State, t: State, a: string, unit: ComputeUnit, c: string) {
    if unit.status == UnitStatus.Free then unit.allocationId.None?
    else
      && (Holds(t, a, c) || Targets(t, a, c))
      && unit.hostname in s.db.servers && s.db.servers[unit.hostname].status == Ready
  }

  ghost predicate OwnAddressOk(change: Change, a: string) {
    change.address == FREE_ADDRESS
    || (change.address.status != IpStatus.Free && change.address.allocationId == Some(a) && change.row.computeId.Some?)
  }

  ghost predicate OwnJobsOk(t: State, a: string) {
    && (forall job :: job in t.db.jobs && Concerns(job) == Some(a) ==> JobOk(t, job) && t.db.jobs[job] == 1)
    && (forall x, y :: x in t.db.jobs && y in t.db.jobs && Concerns(x) == Some(a) && Rival(x, y) ==> x == y)
  }

  /** The rewriting t of s stays within what belongs to a, or was free. */
  ghost predicate Rewrites(s: State, t: State, a: string, change: Change) {
    && t.db == Rewritten(s.db.(jobs := t.db.jobs), a, change)
    && OwnIp(s, a, change.row.ipAddress)
    && IdentityKept(s, t, a)
    && (forall c :: c in change.units ==> Own(s, a, c) && SameUnit(change.units[c], s.db.units[c]))
    && t.inFlight - {a} == s.inFlight - {a}
    && (forall job :: Concerns(job) != Some(a) ==> t.db.jobs[job] == s.db.jobs[job])
  }

  lemma RewriteIsLocal(s: State, t: State, a: string, change: Change)
    requires Rewrites(s, t, a, change)
    ensures Local(s, t, a)
  {
    hide Own, OwnIp, IdentityKept;
    OwnIsUnit(s, a);
    OwnIpInPool(s, a, change.row.ipAddress);
  }

  lemma OwnIpInPool(s: State, a: string, ip: string)
    requires OwnIp(s, a, ip)
    ensures ip in s.db.pool
  {
  }

  lemma RewriteUnitOk(s: State, t: State, a: string, change: Change, c: string)
    requires Rewrites(s, t, a, change)
    requires c in s.db.units && UnitOk(s, c) && Own(s, a, c)
    requires c in change.units ==> OwnUnitOk(s, t, a, change.units[c], c)
    requires Holds(s, a, c) || Targets(s, a, c) ==> c in change.units || Holds(t, a, c) || Targets(t, a, c)
    ensures c in t.db.units && UnitOk(t, c)
  {
    hide OwnIp, IdentityKept;
    assert c !in change.units ==> t.db.units[c] == s.db.units[c];
  }

  lemma RewriteAddressOk(s: State, t: State, a: string, change: Change, ip: string)
    requires Rewrites(s, t, a, change) && OwnAddressOk(change, a)
    requires OwnIp(s, a, ip) && AddressOk(s, ip)
    ensures ip in t.db.pool && AddressOk(t, ip)
  {
    hide Own, SameUnit;
  }

  lemma RewriteKeepsInv(s: State, t: State, a: string, change: Change)
    requires Inv(s) && Subject(s, a) && Rewrites(s, t, a, change)
    requires a in t.db.allocations && AllocationOk(t, a) && OwnAddressOk(change, a) && OwnJobsOk(t, a)
    requires change.row.computeId.Some? ==> Own(s, a, change.row.computeId.value)
    requires a in t.inFlight ==> InFlightOk(t, a) && Own(s, a, t.inFlight[a].target)
    requires forall c :: c in change.units ==> OwnUnitOk(s, t, a, change.units[c], c)
    requires forall c :: Holds(s, a, c) || Targets(s, a, c) ==> c in change.units || Holds(t, a, c) || Targets(t, a, c)
    ensures Inv(t) && LocalTo(s, t, a)
  {
    hide InFlightOk, ServersOk, LoginsDistinct, CpusDisjoint, Own, OwnIp, IdentityKept, Exclusive, Local, JobsOk,
         JobOk, SameUnit, AllocationOk, UnitOk, OwnUnitOk, Rewrites, Rewritten, AddressOk, OwnAddressOk, Rival,
         Concerns;
    RewriteIsLocal(s, t, a, change);
    RewrittenRow(s, t, a, change);
    OwnIsUnit(s, a);
    forall c | c in s.db.units && Own(s, a, c) ensures c in t.db.units && UnitOk(t, c) {
      RewriteUnitOk(s, t, a, change, c);
    }
    forall ip | ip in s.db.pool && OwnIp(s, a, ip) ensures ip in t.db.pool && AddressOk(t, ip) {
      RewriteAddressOk(s, t, a, change, ip);
    }
    LocalStep(s, t, a);
  }

  lemma RewrittenRow(s: State, t: State, a: string, change: Change)
    requires Rewrites(s, t, a, change)
    ensures a in t.db.allocations && t.db.allocations[a] == change.row
  {
  }

  // ---- The jobs of one allocation ----

  ghost predicate NoJobFor(t: State, a: string) {
    forall job :: job in t.db.jobs ==> Concerns(job) != Some(a)
  }

  ghost predicate SameOtherJobs(s: State, t: State, a: string) {
    forall job :: Concerns(job) != Some(a) ==> t.db.jobs[job] == s.db.jobs[job]
  }

  lemma OneJobEach(s: State, a: string, job: Command)
    requires JobsOk(s) && job in s.db.jobs && Concerns(job) == Some(a)
    ensures forall other :: other in s.db.jobs && Concerns(other) == Some(a) ==> other == job
  {
    hide ServerSpecs.ValidUnits;
    forall other | other in s.db.jobs && Concerns(other) == Some(a) ensures other == job {
      assert JobOk(s, other) && JobOk(s, job);
      assert Rival(other, job) ==> other == job;
    }
  }

  lemma TakingLeavesNone(s: State, t: State, a: string, job: Command)
    requires JobsOk(s) && job in s.db.jobs && Concerns(job) == Some(a)
    requires t.db.jobs == s.db.jobs - multiset{job}
    ensures NoJobFor(t, a) && SameOtherJobs(s, t, a)
  {
    OneJobEach(s, a, job);
    assert s.db.jobs[job] == 1;
    assert forall other :: other in t.db.jobs ==> other in s.db.jobs && other != job;
  }

  lemma QuietMeansNone(s: State, a: string)
    requires JobsOk(s) && a in s.db.allocations
    requires s.db.allocations[a].status != AllocationStatus.Allocating
    requires s.db.allocations[a].status != AllocationStatus.Deallocating && s.db.allocations[a].status != Scaling
    ensures NoJobFor(s, a)
  {
    hide ServerSpecs.ValidUnits;
    forall job | job in s.db.jobs ensures Concerns(job) != Some(a) {
      assert JobOk(s, job);
    }
  }

  lemma AddingGivesOne(s: State, t: State, a: string, job: Command)
    requires NoJobFor(s, a) && Concerns(job) == Some(a)
    requires t.db.jobs == s.db.jobs + multiset{job} && JobOk(t, job)
    ensures OwnJobsOk(t, a) && SameOtherJobs(s, t, a)
  {
    assert job !in s.db.jobs;
    assert forall other :: other in t.db.jobs && Concerns(other) == Some(a) ==> other == job;
  }

  lemma JobIsOk(s: State, job: Command)
    requires JobsOk(s) && job in s.db.jobs
    ensures JobOk(s, job)
  {
  }

  lemma UnitHostKnown(s: State, unit: string)
    requires Inv(s) && unit in s.db.units
    ensures s.db.units[unit].hostname in s.db.servers
  {
    assert UnitOk(s, unit);
  }

  /** The allocation and the unit that a create or delete job names. */
  lemma JobNamesPlacement(s: State, job: Command, a: string, unit: string)
    requires Inv(s) && job in s.db.jobs && (job == AllocationCreate(a, unit) || job == AllocationDelete(a, unit))
    ensures JobOk(s, job) && a in s.db.allocations && AllocationOk(s, a) && unit in s.db.units
    ensures s.db.allocations[a].computeId == Some(unit) && a !in s.inFlight && Own(s, a, unit)
    ensures s.db.units[unit].hostname in s.db.servers && s.db.servers[s.db.units[unit].hostname].status == Ready
  {
    hide AddressOk, ServersOk, LoginsDistinct, CpusDisjoint, Exclusive, AwaitsScale;
    JobIsOk(s, job);
    assert AllocationOk(s, a) && UnitOk(s, unit);
    assert a in s.inFlight ==> InFlightOk(s, a);
  }

  // ---- Create ----

  function CreateChange(d: Database, a: string, unit: string, ok: bool): Change
    requires a in d.allocations && unit in d.units
  {
    Change(
      d.allocations[a].(status := if ok then AllocationStatus.Allocated else AllocationStatus.AllocationFail),
      IpAddress(if ok then IpStatus.Allocated else IpStatus.Reserved, Some(a), Some(d.units[unit].hostname)),
      map[unit := Owned(d.units[unit], if ok then UnitStatus.Allocated else UnitStatus.AllocationFail,
                        if ok then Some(a) else None)])
  }

  /** The statements of the create job one after the other, where the schema accepts the row. */
  lemma CreateProgress(d: Database, a: string, unit: string, ok: bool)
    requires a in d.allocations && unit in d.units && d.units[unit].hostname in d.servers
    requires d.allocations[a].ipAddress in d.pool
    requires var change := CreateChange(d, a, unit, ok);
             d.(units := d.units + change.units).AcceptsAllocation(a, change.row)
    ensures CreateFinished(d, a, unit, ok) == Progress(Rewritten(d, a, CreateChange(d, a, unit, ok)), false)
  {
    hide Database.AcceptsAllocation;
    var change := CreateChange(d, a, unit, ok);
    assert d.units + change.units == d.units[unit := change.units[unit]];
  }

  lemma CreateIsAtomic(s: State, a: string, unit: string, ok: bool)
    requires Inv(s) && AllocationCreate(a, unit) in s.db.jobs
    ensures a in s.db.allocations && unit in s.db.units
    ensures var d := Taken(s.db, AllocationCreate(a, unit));
            CreateFinished(d, a, unit, ok) == Progress(Rewritten(d, a, CreateChange(d, a, unit, ok)), false)
  {
    hide Inv, AllocationOk, Own, CreateFinished, Database.AcceptsAllocation;
    JobNamesPlacement(s, AllocationCreate(a, unit), a, unit);
    PlacedInPool(s, a);
    var d := Taken(s.db, AllocationCreate(a, unit));
    var change := CreateChange(d, a, unit, ok);
    PlacedRowIsAccepted(s, d.(units := d.units + change.units), a, change.row);
    CreateProgress(d, a, unit, ok);
  }

  lemma PlacedInPool(s: State, a: string)
    requires a in s.db.allocations && s.db.allocations[a].computeId.Some? && AllocationOk(s, a)
    ensures s.db.allocations[a].ipAddress in s.db.pool
    ensures s.db.allocations[a].computeId.value in s.db.units
    ensures s.db.allocations[a].currentHost == Some(s.db.units[s.db.allocations[a].computeId.value].hostname)
  {
    hide AwaitsScale;
  }

  lemma CreateRowOk(s: State, t: State, a: string, unit: string, ok: bool)
    requires a in s.db.allocations && AllocationOk(s, a) && JobOk(s, AllocationCreate(a, unit))
    requires var d := Taken(s.db, AllocationCreate(a, unit));
             t == s.(db := Rewritten(d, a, CreateChange(d, a, unit, ok)))
    ensures AllocationOk(t, a) && OwnAddressOk(CreateChange(Taken(s.db, AllocationCreate(a, unit)), a, unit, ok), a)
  {
    hide AwaitsScale;
  }

  lemma CreateRowsOk(s: State, t: State, a: string, unit: string, ok: bool)
    requires a in s.db.allocations && AllocationOk(s, a) && JobOk(s, AllocationCreate(a, unit))
    requires var d := Taken(s.db, AllocationCreate(a, unit));
             t == s.(db := Rewritten(d, a, CreateChange(d, a, unit, ok)))
    requires SameOtherJobs(s, t, a)
    ensures AllocationOk(t, a)
    ensures var change := CreateChange(Taken(s.db, AllocationCreate(a, unit)), a, unit, ok);
            OwnAddressOk(change, a) && Rewrites(s, t, a, change)
  {
    CreateRowOk(s, t, a, unit, ok);
    PlacedInPool(s, a);
    hide AllocationOk, OwnAddressOk;
  }

  lemma RunCreateKeepsInv(s: State, a: string, unit: string, ok: bool)
    requires Inv(s) && AllocationCreate(a, unit) in s.db.jobs
    ensures var t := s.(db := CreateFinished(Taken(s.db, AllocationCreate(a, unit)), a, unit, ok).db);
            Inv(t) && LocalTo(s, t, a)
  {
    hide LocalTo, AllocationOk, UnitOk, InFlightOk, JobOk, Own, AddressOk, ServersOk, LoginsDistinct, CpusDisjoint;
    hide CreateFinished, Exclusive, Rewrites, JobsOk, OwnAddressOk;
    CreateIsAtomic(s, a, unit, ok);
    var d := Taken(s.db, AllocationCreate(a, unit));
    var change := CreateChange(d, a, unit, ok);
    var t := s.(db := Rewritten(d, a, change));
    JobNamesPlacement(s, AllocationCreate(a, unit), a, unit);
    TakingLeavesNone(s, t, a, AllocationCreate(a, unit));
    CreateRowsOk(s, t, a, unit, ok);
    RewriteKeepsInv(s, t, a, change);
  }

  // ---- Delete ----

  function DeleteChange(d: Database, a: string, unit: string, ok: bool): Change
    requires a in d.allocations && unit in d.units
  {
    var row := d.allocations[a];
    if ok then
      Change(row.(status := Deallocated, computeId := None, currentHost := None),
             FREE_ADDRESS,
             map[unit := Owned(d.units[unit], UnitStatus.Free, None)])
    else
      Change(row.(status := AllocationStatus.DeallocationFail),
             IpAddress(IpStatus.Allocated, Some(a), Some(d.units[unit].hostname)),
             map[unit := Owned(d.units[unit], UnitStatus.DeallocationFail, Some(a))])
  }

  /** The statements of the delete job one after the other, where the schema accepts the row. */
  lemma DeleteProgress(d: Database, a: string, unit: string, ok: bool)
    requires a in d.allocations && unit in d.units && d.units[unit].hostname in d.servers
    requires d.allocations[a].ipAddress in d.pool
    requires var change := DeleteChange(d, a, unit, ok);
             d.(units := d.units + change.units).AcceptsAllocation(a, change.row)
    ensures DeleteFinished(d, a, unit, ok) == Progress(Rewritten(d, a, DeleteChange(d, a, unit, ok)), false)
  {
    hide Database.AcceptsAllocation;
    var change := DeleteChange(d, a, unit, ok);
    assert d.units + change.units == d.units[unit := change.units[unit]];
  }

  lemma DeleteIsAtomic(s: State, a: string, unit: string, ok: bool)
    requires Inv(s) && AllocationDelete(a, unit) in s.db.jobs
    ensures a in s.db.allocations && unit in s.db.units
    ensures var d := Taken(s.db, AllocationDelete(a, unit));
            DeleteFinished(d, a, unit, ok) == Progress(Rewritten(d, a, DeleteChange(d, a, unit, ok)), false)
  {
    hide Inv, AllocationOk, Own, DeleteFinished, Database.AcceptsAllocation;
    JobNamesPlacement(s, AllocationDelete(a, unit), a, unit);
    PlacedInPool(s, a);
    var d := Taken(s.db, AllocationDelete(a, unit));
    var change := DeleteChange(d, a, unit, ok);
    PlacedRowIsAccepted(s, d.(units := d.units + change.units), a, change.row);
    DeleteProgress(d, a, unit, ok);
  }

  lemma DeleteRowOk(s: State, t: State, a: string, unit: string, ok: bool)
    requires a in s.db.allocations && AllocationOk(s, a) && JobOk(s, AllocationDelete(a, unit))
    requires var d := Taken(s.db, AllocationDelete(a, unit));
             t == s.(db := Rewritten(d, a, DeleteChange(d, a, unit, ok)))
    ensures AllocationOk(t, a) && OwnAddressOk(DeleteChange(Taken(s.db, AllocationDelete(a, unit)), a, unit, ok), a)
  {
    hide AwaitsScale;
  }

  lemma DeleteRowsOk(s: State, t: State, a: string, unit: string, ok: bool)
    requires a in s.db.allocations && AllocationOk(s, a) && JobOk(s, AllocationDelete(a, unit))
    requires var d := Taken(s.db, AllocationDelete(a, unit));
             t == s.(db := Rewritten(d, a, DeleteChange(d, a, unit, ok)))
    requires SameOtherJobs(s, t, a)
    ensures AllocationOk(t, a)
    ensures var change := DeleteChange(Taken(s.db, AllocationDelete(a, unit)), a, unit, ok);
            OwnAddressOk(change, a) && Rewrites(s, t, a, change)
  {
    DeleteRowOk(s, t, a, unit, ok);
    PlacedInPool(s, a);
    hide AllocationOk, OwnAddressOk;
  }

  lemma RunDeleteKeepsInv(s: State, a: string, unit: string, ok: bool)
    requires Inv(s) && AllocationDelete(a, unit) in s.db.jobs
    ensures var t := s.(db := DeleteFinished(Taken(s.db, AllocationDelete(a, unit)), a, unit, ok).db);
            Inv(t) && LocalTo(s, t, a)
  {
    hide LocalTo, AllocationOk, UnitOk, InFlightOk, JobOk, Own, AddressOk, ServersOk, LoginsDistinct, CpusDisjoint;
    hide DeleteFinished, Exclusive, Rewrites, JobsOk, OwnAddressOk;
    DeleteIsAtomic(s, a, unit, ok);
    var d := Taken(s.db, AllocationDelete(a, unit));
    var change := DeleteChange(d, a, unit, ok);
    var t := s.(db := Rewritten(d, a, change));
    JobNamesPlacement(s, AllocationDelete(a, unit), a, unit);
    TakingLeavesNone(s, t, a, AllocationDelete(a, unit));
    DeleteRowsOk(s, t, a, unit, ok);
    RewriteKeepsInv(s, t, a, change);
  }

  // ---- Deallocate ----

  function DeallocateChange(d: Database, a: string, unit: string): Change
    requires a in d.allocations && unit in d.units && d.allocations[a].ipAddress in d.pool
  {
    var row := d.allocations[a];
    Change(row.(status := AllocationStatus.Deallocating),
           d.pool[row.ipAddress].(status := IpStatus.Releasing),
           map[unit := Owned(d.units[unit], UnitStatus.Deallocating, Some(a))])
  }

  /** Deallocation goes ahead for exactly these allocations. */
  ghost predicate CanDeallocate(s: State, a: string, unit: string) {
    Holds(s, a, unit) && unit in s.db.units && Deallocatable(s.db.units[unit].status)
  }

  lemma DeallocateIsAtomic(s: State, a: string, unit: string)
    requires Inv(s) && CanDeallocate(s, a, unit)
    ensures s.db.allocations[a].ipAddress in s.db.pool
    ensures DeallocateOutcome(s.db, a) ==
            (Rewritten(s.db.(jobs := s.db.jobs + multiset{AllocationDelete(a, unit)}), a,
                DeallocateChange(s.db, a, unit)),
             DeleteQueued)
  {
    hide UnitOk, AddressOk, InFlightOk, AwaitsScale, ServersOk, Exclusive, LoginsDistinct, CpusDisjoint, JobsOk;
    assert AllocationOk(s, a);
    var change := DeallocateChange(s.db, a, unit);
    UnitHostKnown(s, unit);
    assert Own(s, a, unit);
    PlacedRowIsAccepted(s, s.db.(units := s.db.units + change.units), a, change.row);
    assert s.db.units + change.units == s.db.units[unit := change.units[unit]];
  }

  lemma DeallocateRowsOk(s: State, t: State, a: string, unit: string)
    requires a in s.db.allocations && AllocationOk(s, a) && CanDeallocate(s, a, unit)
    requires t == s.(db := Rewritten(s.db.(jobs := s.db.jobs + multiset{AllocationDelete(a, unit)}), a,
                                     DeallocateChange(s.db, a, unit)))
    requires NoJobFor(s, a)
    ensures AllocationOk(t, a) && OwnJobsOk(t, a)
    ensures var change := DeallocateChange(s.db, a, unit);
            OwnAddressOk(change, a) && Rewrites(s, t, a, change)
  {
    hide AwaitsScale;
    AddingGivesOne(s, t, a, AllocationDelete(a, unit));
  }

  lemma DeallocateKeepsInv(s: State, a: string)
    requires Inv(s) && NotScaling(s.db, a)
    ensures var t := s.(db := DeallocateOutcome(s.db, a).0); Inv(t) && (t == s || LocalTo(s, t, a))
  {
    hide LocalTo, Inv, Rewrites, OwnAddressOk, OwnJobsOk, NoJobFor, AllocationOk, DeallocateOutcome;
    if unit :| CanDeallocate(s, a, unit) {
      DeallocateIsAtomic(s, a, unit);
      var change := DeallocateChange(s.db, a, unit);
      var t := s.(db := Rewritten(s.db.(jobs := s.db.jobs + multiset{AllocationDelete(a, unit)}), a, change));
      DeallocatableFacts(s, a, unit);
      DeallocateRowsOk(s, t, a, unit);
      RewriteKeepsInv(s, t, a, change);
    } else {
      DeallocateRefused(s, a);
    }
  }

  /** What is known of an allocation whose deallocation goes ahead. */
  lemma DeallocatableFacts(s: State, a: string, unit: string)
    requires Inv(s) && NotScaling(s.db, a) && CanDeallocate(s, a, unit)
    ensures AllocationOk(s, a) && NoJobFor(s, a) && a !in s.inFlight
    ensures s.db.units[unit].hostname in s.db.servers && s.db.servers[s.db.units[unit].hostname].status == Ready
  {
    hide AddressOk, ServersOk, LoginsDistinct, CpusDisjoint, Exclusive, JobsOk;
    assert AllocationOk(s, a) && UnitOk(s, unit);
    QuietMeansNone(s, a);
    assert a in s.inFlight ==> InFlightOk(s, a);
  }

  lemma DeallocateRefused(s: State, a: string)
    requires forall unit :: !CanDeallocate(s, a, unit)
    ensures DeallocateOutcome(s.db, a).0 == s.db
  {
    if a in s.db.allocations && s.db.allocations[a].computeId.Some? {
      assert !CanDeallocate(s, a, s.db.allocations[a].computeId.value);
    }
  }

  // ---- Scale ----

  ghost predicate CanScale(s: State, a: string, request: ScaleRequest) {
    && a in s.db.allocations && s.db.allocations[a].status == AllocationStatus.Allocated
    && s.db.allocations[a].computeId.Some? && s.db.allocations[a].computeId.value in s.db.units
    && s.db.units[s.db.allocations[a].computeId.value].cpuCount != request.cpuCount
  }

  function ScaleChange(d: Database, a: string): Change
    requires a in d.allocations && d.allocations[a].ipAddress in d.pool
  {
    Change(d.allocations[a].(status := Scaling), d.pool[d.allocations[a].ipAddress], map[])
  }

  lemma ScaleIsAtomic(s: State, a: string, request: ScaleRequest)
    requires Inv(s) && CanScale(s, a, request)
    ensures s.db.allocations[a].ipAddress in s.db.pool
    ensures ScaleOutcome(s.db, a, request, FailsBefore) == (s.db, EnqueueFailed)
    ensures ScaleOutcome(s.db, a, request, FailsAfter) ==
            (s.db.(jobs := s.db.jobs + multiset{AllocationScale(a, ScaleFilter(request))}), EnqueueFailed)
    ensures ScaleOutcome(s.db, a, request, Works) ==
            (Rewritten(s.db.(jobs := s.db.jobs + multiset{AllocationScale(a, ScaleFilter(request))}), a,
                ScaleChange(s.db, a)),
             ScaleReply.ScaleQueued)
  {
    hide UnitOk, AddressOk, InFlightOk, AwaitsScale, ServersOk, Exclusive, LoginsDistinct, CpusDisjoint, JobsOk;
    assert AllocationOk(s, a);
    var change := ScaleChange(s.db, a);
    UnitHostKnown(s, s.db.allocations[a].computeId.value);
    assert Own(s, a, s.db.allocations[a].computeId.value);
    PlacedRowIsAccepted(s, s.db, a, change.row);
    var after := s.db.(allocations := s.db.allocations[a := change.row]);
    PlacedRowIsAccepted(s, s.db, a, s.db.allocations[a]);
    assert after.AcceptsAllocation(a, s.db.allocations[a]) by {
      assert s.db.AcceptsAllocation(a, s.db.allocations[a]);
    }
    assert s.db.units + map[] == s.db.units;
    assert after.allocations[a := s.db.allocations[a]] == s.db.allocations;
    assert s.db.pool[change.row.ipAddress := change.address] == s.db.pool;
  }

  lemma ScaleRowsOk(s: State, t: State, a: string, request: ScaleRequest)
    requires a in s.db.allocations && AllocationOk(s, a) && CanScale(s, a, request)
    requires t == s.(db := Rewritten(s.db.(jobs := s.db.jobs + multiset{AllocationScale(a, ScaleFilter(request))}), a,
                                     ScaleChange(s.db, a)))
    requires NoJobFor(s, a)
    ensures AllocationOk(t, a) && OwnJobsOk(t, a)
    ensures OwnAddressOk(ScaleChange(s.db, a), a) && Rewrites(s, t, a, ScaleChange(s.db, a))
  {
    var job := AllocationScale(a, ScaleFilter(request));
    assert job in t.db.jobs;
    AddingGivesOne(s, t, a, job);
  }

  lemma ScaleKeepsInv(s: State, a: string, request: ScaleRequest, fault: CallFault)
    requires Inv(s) && fault != FailsAfter
    ensures var t := s.(db := ScaleOutcome(s.db, a, request, fault).0); Inv(t) && (t == s || LocalTo(s, t, a))
  {
    hide LocalTo, AddressOk, ServersOk, LoginsDistinct, CpusDisjoint, Exclusive, Rewrites, JobsOk, OwnAddressOk;
    if CanScale(s, a, request) {
      hide ScaleOutcome;
      ScaleIsAtomic(s, a, request);
      if fault == Works {
        var change := ScaleChange(s.db, a);
        var t := s.(db := Rewritten(s.db.(jobs := s.db.jobs + multiset{AllocationScale(a, ScaleFilter(request))}), a,
            change));
        assert AllocationOk(s, a);
        QuietMeansNone(s, a);
        ScaleRowsOk(s, t, a, request);
        assert a in s.inFlight ==> InFlightOk(s, a);
        RewriteKeepsInv(s, t, a, change);
      }
    } else {
      ScaleRefused(s, a, request, fault);
    }
  }

  lemma ScaleRefused(s: State, a: string, request: ScaleRequest, fault: CallFault)
    requires !CanScale(s, a, request)
    ensures ScaleOutcome(s.db, a, request, fault).0 == s.db
    ensures ScaleOutcome(s.db, a, request, fault).1 != EnqueueFailed
  {
  }
}
