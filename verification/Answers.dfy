/**
 What each request is answered, and what it stores, said over the tables alone. In a valid state the
 replies follow from statuses and names that the caller can look up.
 */
module Answers {
  import opened Administration
  import opened Allocations
  import opened LoginNames
  import opened Options
  import opened Protocol
  import opened ProtocolAllocate
  import opened ProtocolJobs
  import opened ProtocolScale
  import opened Repository
  import opened Rollback
  import opened StringOrder
  import opened Tables
  import opened Workers

  import Lifecycle

  // ---- Allocations ----

  /** A free unit that an allocation request may get. */
  predicate Usable(d: Database, c: string, region: Option<string>, zone: Option<string>, cpuCount: Option<int>) {
    && c in d.units && d.units[c].status == UnitStatus.Free
    && (cpuCount.Some? ==> d.units[c].cpuCount == cpuCount.value)
    && d.units[c].hostname in d.servers
    && var host := d.servers[d.units[c].hostname];
    && host.status == Ready && host.health == Healthy
    && (region.Some? ==> host.region == region.value) && (zone.Some? ==> host.zone == zone.value)
  }

  /** Ahead by hostname, and on one host by ordinal. */
  predicate Ahead(x: ComputeUnit, y: ComputeUnit) {
    (x.hostname == y.hostname && x.ordinal <= y.ordinal) || (x.hostname != y.hostname && StrLeq(x.hostname, y.hostname))
  }

  ghost predicate FirstUsable(d: Database, c: string, filter: Filter) {
    && Usable(d, c, filter.region, filter.zone, filter.cpuCount)
    && forall other :: Usable(d, other, filter.region, filter.zone, filter.cpuCount) ==>
                         Ahead(d.units[c], d.units[other])
  }

  lemma PickIsFirstUsable(d: Database, filter: Filter)
    ensures PickUnit(d, filter).None? <==>
            forall c :: !Usable(d, c, filter.region, filter.zone, filter.cpuCount)
    ensures PickUnit(d, filter).Some? ==> FirstUsable(d, PickUnit(d, filter).value, filter)
  {
    forall c ensures Usable(d, c, filter.region, filter.zone, filter.cpuCount) <==> d.Eligible(filter, c) {
    }
    hide Usable, Database.Eligible, StrLeq;
    if PickUnit(d, filter).Some? {
      var unit := PickUnit(d, filter).value;
      forall c | Usable(d, c, filter.region, filter.zone, filter.cpuCount) ensures Ahead(d.units[unit], d.units[c]) {
        UsableIsUnit(d, c, filter);
        UsableIsUnit(d, unit, filter);
        assert UnitLeq(d.units[unit], d.units[c]);
      }
    }
  }

  lemma UsableIsUnit(d: Database, c: string, filter: Filter)
    requires Usable(d, c, filter.region, filter.zone, filter.cpuCount)
    ensures c in d.units
  {
  }

  /**
   An allocation request that meets no fault: the unit is the first usable one, and the checks come in
   this order. A refused request changes nothing.
   */
  lemma AllocateAnswers(s: State, request: AllocationRequest)
    requires Inv(s)
    ensures var (e, reply) := AllocateOutcome(s.db, request, NoFault);
            && (reply == Refused(NoFreeComputeUnit) <==>
                  forall c :: !Usable(s.db, c, request.filter.region, request.filter.zone, request.filter.cpuCount))
            && (reply.Refused? ==> e == s.db)
            && (reply != Refused(NoFreeComputeUnit) ==>
                  exists unit :: FirstUsable(s.db, unit, request.filter)
                                 && reply == AnswerOn(s.db, Identity(request, unit).0, Identity(request, unit).1))
  {
    hide Inv, Usable, FirstUsable, ValidLogin, ProperLogin, Identity, Settled, FateOf, FreedUnit, AnswerOn,
         AllocateOn;
    PickIsFirstUsable(s.db, request.filter);
    var pick := PickUnit(s.db, request.filter);
    if pick.Some? {
      AnswerOnUnit(s, request, pick.value);
      assert AllocateOutcome(s.db, request, NoFault) == AllocateOn(s.db, request, NoFault, pick.value);
    }
  }

  /** The answer once a unit gave the request its names. */
  ghost function AnswerOn(d: Database, id: string, login: string): AllocateReply {
    if id in d.allocations then Refused(IdExists)
    else if !ProperLogin(login) then Refused(LoginInvalid)
    else if exists a :: a in d.allocations && d.allocations[a].loginUser == login
                        && d.allocations[a].status != Deallocated then Refused(LoginInUse)
    else if forall ip :: ip in d.pool ==> d.pool[ip].status != IpStatus.Free then Refused(NoFreeIpAddress)
    else Accepted(id)
  }

  lemma AnswerOnUnit(s: State, request: AllocationRequest, unit: string)
    requires Inv(s) && PickUnit(s.db, request.filter) == Some(unit)
    ensures unit in s.db.units
    ensures var (e, reply) := AllocateOn(s.db, request, NoFault, unit);
            && reply == AnswerOn(s.db, Identity(request, unit).0, Identity(request, unit).1)
            && reply != Refused(NoFreeComputeUnit)
            && (reply.Refused? ==> e == s.db)
  {
    hide Inv, ValidLogin, ProperLogin, Identity, Settled, FateOf, AdmittedOn;
    forall ip ensures FreeIp(s.db.pool, ip) <==> ip in s.db.pool && s.db.pool[ip].status == IpStatus.Free {
    }
    PickedIsFree(s.db, request.filter);
    var (id, login) := Identity(request, unit);
    ValidLoginIsProper(login);
    if Admission(s.db, id, login, NoFault).None? {
      NoRefusalAdmits(s.db, request, NoFault, unit);
      var i, row :| AdmittedOn(s.db, request, NoFault, unit, i, row);
      AdmittedIds(s.db, request, NoFault, unit, i, row);
      AdmittedOnOutcome(s, request, NoFault, unit, i, row);
      NoFaultCompletes();
    } else {
      Lifecycle.PickLeavesNoTrace(s, request.filter);
    }
  }

  lemma AdmittedIds(d: Database, request: AllocationRequest, plan: FaultPlan, unit: string, id: string, row: Allocation)
    requires AdmittedOn(d, request, plan, unit, id, row)
    ensures id == Identity(request, unit).0 && Admission(d, id, Identity(request, unit).1, plan).None?
  {
    hide Identity, Admission;
  }

  lemma NoFaultCompletes()
    ensures FateOf(NoFault, true) == Complete
  {
  }

  /**
   With a fault the answer is the one without it, or that preparation failed; a request that would have been
   accepted fails exactly when one of the calls it makes does.
   */
  lemma FaultAnswers(s: State, request: AllocationRequest, plan: FaultPlan)
    requires Inv(s)
    ensures var without, reply := AllocateOutcome(s.db, request, NoFault).1, AllocateOutcome(s.db, request, plan).1;
            && (reply == without || reply == Refused(PreparationFailed))
            && (without.Accepted? ==>
                  (reply == Refused(PreparationFailed) <==> exists call :: call != ReturnUnit && plan.Hits(call)))
  {
    hide Inv, AllocateOn, Claims, Identity;
    AcceptedIffClaims(s, request, NoFault);
    AcceptedIffClaims(s, request, plan);
    var pick := PickUnit(s.db, request.filter);
    if pick.Some? {
      FaultAnswersOn(s, request, plan, pick.value);
    }
    assert forall call :: !NoFault.Hits(call);
  }

  lemma FaultAnswersOn(s: State, request: AllocationRequest, plan: FaultPlan, unit: string)
    requires Inv(s) && PickUnit(s.db, request.filter) == Some(unit)
    ensures unit in s.db.units
    ensures var without, reply := AllocateOn(s.db, request, NoFault, unit).1, AllocateOn(s.db, request, plan, unit).1;
            reply == without || reply == Refused(PreparationFailed)
  {
    hide Inv, ValidLogin, ProperLogin, Identity, Settled, FateOf, AdmittedOn, LoginActive;
    PickedIsFree(s.db, request.filter);
    var (id, login) := Identity(request, unit);
    if Admission(s.db, id, login, NoFault).None? {
      NoRefusalAdmits(s.db, request, NoFault, unit);
      var i, row :| AdmittedOn(s.db, request, NoFault, unit, i, row);
      AdmittedIds(s.db, request, NoFault, unit, i, row);
      AdmittedOnOutcome(s, request, NoFault, unit, i, row);
      NoFaultCompletes();
    }
  }

  /** A deallocation request: only an allocation in transition to ALLOCATED or DEALLOCATED has to wait. */
  lemma DeallocateAnswers(s: State, a: string)
    requires Inv(s)
    ensures var (e, reply) := DeallocateOutcome(s.db, a);
            if a !in s.db.allocations then reply == DeallocateReply.NoSuchAllocation && e == s.db
            else if s.db.allocations[a].computeId.None? then reply == DeallocateReply.NoPlacement && e == s.db
            else if s.db.allocations[a].status == AllocationStatus.Allocating
                    || s.db.allocations[a].status == AllocationStatus.Deallocating
            then reply == WrongUnitStatus && e == s.db
            else
              && reply == DeleteQueued && e.servers == s.db.servers
              && var row := s.db.allocations[a];
              && row.computeId.value in s.db.units && row.ipAddress in s.db.pool
              && e.units == s.db.units[row.computeId.value := s.db.units[row.computeId.value].(
                                         status := UnitStatus.Deallocating, allocationId := Some(a))]
              && e.allocations == s.db.allocations[a := row.(status := AllocationStatus.Deallocating)]
              && e.pool == s.db.pool[row.ipAddress := s.db.pool[row.ipAddress].(status := IpStatus.Releasing)]
              && e.jobs == s.db.jobs + multiset{AllocationDelete(a, row.computeId.value)}
  {
    hide Inv, AllocationOk, DeallocateOutcome;
    if a in s.db.allocations && s.db.allocations[a].computeId.Some? {
      var unit := s.db.allocations[a].computeId.value;
      WhenDeallocatable(s, a, unit);
      if CanDeallocate(s, a, unit) {
        DeallocateIsAtomic(s, a, unit);
      } else {
        DeallocateRefusals(s.db, a);
      }
    } else {
      DeallocateRefusals(s.db, a);
    }
  }

  lemma WhenDeallocatable(s: State, a: string, unit: string)
    requires Inv(s) && Holds(s, a, unit)
    ensures unit in s.db.units
    ensures CanDeallocate(s, a, unit) <==>
            s.db.allocations[a].status != AllocationStatus.Allocating
            && s.db.allocations[a].status != AllocationStatus.Deallocating
  {
    hide UnitOk, AddressOk, InFlightOk, JobsOk, ServersOk, Exclusive, LoginsDistinct, CpusDisjoint, AwaitsScale;
    assert AllocationOk(s, a);
  }

  lemma DeallocateRefusals(d: Database, a: string)
    ensures a !in d.allocations ==> DeallocateOutcome(d, a) == (d, DeallocateReply.NoSuchAllocation)
    ensures a in d.allocations && d.allocations[a].computeId.None? ==>
              DeallocateOutcome(d, a) == (d, DeallocateReply.NoPlacement)
    ensures a in d.allocations && d.allocations[a].computeId.Some? && d.allocations[a].computeId.value in d.units
            && !Deallocatable(d.units[d.allocations[a].computeId.value].status) ==>
              DeallocateOutcome(d, a) == (d, WrongUnitStatus)
  {
  }

  /** A scale request: only an allocation at rest, and only to another size. */
  lemma ScaleAnswers(s: State, a: string, request: ScaleRequest, fault: CallFault)
    requires Inv(s)
    ensures var (e, reply) := ScaleOutcome(s.db, a, request, fault);
            if a !in s.db.allocations then reply == ScaleReply.NoSuchAllocation && e == s.db
            else if s.db.allocations[a].computeId.None? then reply == ScaleReply.NoPlacement && e == s.db
            else if s.db.allocations[a].status != AllocationStatus.Allocated then reply == WrongStatus && e == s.db
            else
              && s.db.allocations[a].computeId.value in s.db.units
              && if s.db.units[s.db.allocations[a].computeId.value].cpuCount == request.cpuCount
                 then reply == SameSize && e == s.db
                 else if fault == Works then
                   && reply == ScaleReply.ScaleQueued
                   && e == s.db.(allocations := s.db.allocations[a := s.db.allocations[a].(status := Scaling)],
                                 jobs := s.db.jobs + multiset{AllocationScale(a,
                                           Filter(request.region, request.zone, Some(request.cpuCount)))})
                 else reply == EnqueueFailed
  {
    hide UnitOk, AddressOk, InFlightOk, JobsOk, ServersOk, Exclusive, LoginsDistinct, CpusDisjoint, AwaitsScale;
    if a in s.db.allocations && s.db.allocations[a].computeId.Some? {
      assert AllocationOk(s, a);
      if CanScale(s, a, request) {
        hide ScaleOutcome;
        ScaleIsAtomic(s, a, request);
      }
    }
  }

  // ---- What each playbook result means ----

  /** A create job: the allocation, its unit and its address settle together. */
  lemma CreateDecides(s: State, a: string, unit: string, result: PlaybookResult)
    requires Inv(s) && AllocationCreate(a, unit) in s.db.jobs
    ensures var e := CreateFinished(Taken(s.db, AllocationCreate(a, unit)), a, unit, result.Successful?).db;
            && a in s.db.allocations && a in e.allocations && unit in e.units && s.db.allocations[a].ipAddress in e.pool
            && e.allocations[a].computeId == Some(unit)
            && e.pool[s.db.allocations[a].ipAddress].allocationId == Some(a)
            && if result.Successful?
               then e.allocations[a].status == AllocationStatus.Allocated
                    && e.units[unit].status == UnitStatus.Allocated && e.units[unit].allocationId == Some(a)
                    && e.pool[s.db.allocations[a].ipAddress].status == IpStatus.Allocated
               else e.allocations[a].status == AllocationStatus.AllocationFail
                    && e.units[unit].status == UnitStatus.AllocationFail && e.units[unit].allocationId == None
                    && e.pool[s.db.allocations[a].ipAddress].status == IpStatus.Reserved
  {
    hide Inv, CreateFinished, AllocationOk;
    JobNamesPlacement(s, AllocationCreate(a, unit), a, unit);
    CreateIsAtomic(s, a, unit, result.Successful?);
  }

  /** A delete job: after success the unit and the address are free again, otherwise everything stays in place. */
  lemma DeleteDecides(s: State, a: string, unit: string, result: PlaybookResult)
    requires Inv(s) && AllocationDelete(a, unit) in s.db.jobs
    ensures var e := DeleteFinished(Taken(s.db, AllocationDelete(a, unit)), a, unit, result.Successful?).db;
            && a in s.db.allocations && a in e.allocations && unit in e.units && s.db.allocations[a].ipAddress in e.pool
            && if result.Successful?
               then e.allocations[a] == s.db.allocations[a].(status := Deallocated, computeId := None,
                                                             currentHost := None)
                    && e.units[unit].status == UnitStatus.Free && e.units[unit].allocationId == None
                    && e.pool[s.db.allocations[a].ipAddress] == IpAddress(IpStatus.Free, None, None)
               else e.allocations[a] == s.db.allocations[a].(status := AllocationStatus.DeallocationFail)
                    && e.units[unit].status == UnitStatus.DeallocationFail && e.units[unit].allocationId == Some(a)
                    && e.pool[s.db.allocations[a].ipAddress].status == IpStatus.Allocated
                    && e.pool[s.db.allocations[a].ipAddress].allocationId == Some(a)
  {
    hide Inv, DeleteFinished, AllocationOk;
    JobNamesPlacement(s, AllocationDelete(a, unit), a, unit);
    DeleteIsAtomic(s, a, unit, result.Successful?);
  }

  /** The second half of a scale: only success makes the allocation ALLOCATED again. */
  lemma ScaleDecides(s: State, a: string, result: PlaybookResult)
    requires Inv(s) && a in s.inFlight
    ensures var e := ScaleFinished(s.db, a, s.inFlight[a], result.Successful?).db;
            && a in e.allocations
            && e.allocations[a].status == (if result.Successful? then AllocationStatus.Allocated else ScaleFail)
            && e.allocations[a].computeId == Some(if result.Successful? then s.inFlight[a].target
                                                  else s.inFlight[a].source)
  {
    hide Inv, ScaleFinished, AllocationOk, UnitOk;
    InFlightFacts(s, a);
    FinishIsAtomic(s, a, result.Successful?);
    InFlightKeepsPlacement(s, a);
  }

  // ---- Servers ----

  /** An init request stores its host as new, whatever was stored for it, unless it has no zone. */
  lemma InitServerAnswers(d: Database, request: InitRequest)
    ensures var p := InitServerOutcome(d, request);
            && (p.raised <==> request.zone.None?) && (p.raised ==> p.db == d)
            && (!p.raised ==>
                  && p.db.servers.Keys == d.servers.Keys + {request.hostname}
                  && p.db.servers[request.hostname] == Server(Initializing, Unknown, request.region, request.zone.value)
                  && (forall h :: h in d.servers && h != request.hostname ==> p.db.servers[h] == d.servers[h])
                  && p.db == d.(servers := p.db.servers, jobs := d.jobs + multiset{ServerInit(request)}))
  {
  }

  /** A decommission request is refused for an unknown host and for one that an allocation still names. */
  lemma DecommissionAnswers(d: Database, hostname: string)
    ensures var (e, reply) := DecommissionOutcome(d, hostname);
            && (reply == NotFound <==> hostname !in d.servers)
            && (reply == StateError <==>
                  hostname in d.servers
                  && exists a :: a in d.allocations && d.allocations[a].currentHost == Some(hostname)
                                 && d.allocations[a].status != Deallocated)
            && (reply == NotFound || reply == StateError || reply == Queued)
            && (reply != Queued ==> e == d)
            && (reply == Queued ==>
                  e == d.(servers := d.servers[hostname := d.servers[hostname].(status := Decommissioning)],
                          jobs := d.jobs + multiset{ServerDecomm(hostname)}))
  {
  }

  /** In a valid state: a host with a placed allocation keeps it. */
  lemma DecommissionNeedsEmptyHost(s: State, hostname: string)
    requires Inv(s)
    ensures DecommissionOutcome(s.db, hostname).1 == StateError <==>
            hostname in s.db.servers
            && exists a :: a in s.db.allocations && s.db.allocations[a].computeId.Some?
                           && s.db.allocations[a].currentHost == Some(hostname)
  {
    hide UnitOk, AddressOk, InFlightOk, JobsOk, ServersOk, Exclusive, LoginsDistinct, CpusDisjoint, AwaitsScale;
    forall a | a in s.db.allocations && s.db.allocations[a].currentHost == Some(hostname)
      ensures s.db.allocations[a].computeId.Some? && s.db.allocations[a].status != Deallocated
    {
      assert AllocationOk(s, a);
    }
  }

  /** A host may be deleted when it was never in service or has left it, and then it goes with its units. */
  lemma DeleteServerAnswers(d: Database, hostname: string)
    ensures var (e, reply) := DeleteServerOutcome(d, hostname);
            if hostname !in d.servers then reply == NotFound && e == d
            else match d.servers[hostname].status {
              case InitFail => reply == Done && ServerGone(d, e, hostname)
              case Decommissioned => reply == Done && ServerGone(d, e, hostname)
              case DecommissionFail => reply == Done && ServerGone(d, e, hostname)
              case Initializing => reply == StateError && e == d
              case Ready => reply == StateError && e == d
              case Decommissioning => reply == StateError && e == d
            }
  {
    hide ServerGone, Database.WithoutServer;
    WithoutServerIsGone(d, hostname);
  }

  // ---- The address pool ----

  /** Addresses are added all or none: all exactly when they differ from each other and from the pool's. */
  lemma InsertAddressesAnswers(d: Database, addresses: seq<string>)
    ensures var (e, reply) := InsertAddressesOutcome(d, addresses);
            var allNew := (forall i, j :: 0 <= i < j < |addresses| ==> addresses[i] != addresses[j])
                         && forall i :: 0 <= i < |addresses| ==> addresses[i] !in d.pool;
            && reply == (if allNew then Done else OperationError)
            && e == d.(pool := e.pool)
            && (forall ip :: ip in e.pool <==> ip in d.pool || (allNew && ip in addresses))
            && (forall ip :: ip in d.pool ==> e.pool[ip] == d.pool[ip])
            && (allNew ==> forall ip :: ip in addresses ==> e.pool[ip] == IpAddress(IpStatus.Free, None, None))
  {
  }

  /** An address can be removed exactly while it is free. */
  lemma DeleteAddressAnswers(s: State, ip: string)
    requires Inv(s)
    ensures var (e, reply) := DeleteAddressOutcome(s.db, ip);
            if ip !in s.db.pool then reply == Absent && e == s.db
            else if s.db.pool[ip].status != IpStatus.Free then reply == OperationError && e == s.db
            else
              && reply == Done && e == s.db.(pool := e.pool)
              && e.pool.Keys == s.db.pool.Keys - {ip}
              && forall other :: other in e.pool ==> e.pool[other] == s.db.pool[other]
  {
    hide AllocationOk, UnitOk, InFlightOk, JobsOk, ServersOk, Exclusive, LoginsDistinct, CpusDisjoint;
    assert ip in s.db.pool ==> AddressOk(s, ip);
  }

  // ---- The schema ----

  /** The three partial unique indexes on the allocations table. */
  predicate IndexesHold(rows: map<string, Allocation>) {
    && (forall a, b :: a in rows && b in rows && a != b
                       && rows[a].status != Deallocated && rows[b].status != Deallocated
                       ==> rows[a].loginUser != rows[b].loginUser)
    && (forall a, b :: a in rows && b in rows && a != b
                       && rows[a].computeId.Some? && rows[b].computeId.Some?
                       ==> rows[a].computeId.value != rows[b].computeId.value)
    && (forall a, b :: a in rows && b in rows && a != b
                       && rows[a].status == rows[b].status == AllocationStatus.Allocated
                       ==> rows[a].ipAddress != rows[b].ipAddress)
  }

  /** A row is stored exactly when the table still satisfies its indexes and names existing rows. */
  lemma StoredExactlyWhen(d: Database, id: string, row: Allocation)
    requires IndexesHold(d.allocations)
    ensures var p := Start(d).StoreAllocation(id, row);
            var stored := && IndexesHold(d.allocations[id := row])
                          && (row.computeId.Some? ==> row.computeId.value in d.units)
                          && (row.currentHost.Some? ==> row.currentHost.value in d.servers);
            && (p.raised <==> !stored)
            && p.db == if stored then d.(allocations := d.allocations[id := row]) else d
  {
    var rows := d.allocations[id := row];
    if IndexesHold(rows) {
      forall other | other in d.allocations && other != id ensures Database.Compatible(row, d.allocations[other]) {
        assert rows[other] == d.allocations[other] && id in rows && rows[id] == row;
      }
    }
    if forall other :: other in d.allocations && other != id ==> Database.Compatible(row, d.allocations[other]) {
      CompatibleRowKeepsIndexes(d.allocations, id, row);
    }
  }

  lemma CompatibleRowKeepsIndexes(table: map<string, Allocation>, id: string, row: Allocation)
    requires IndexesHold(table)
    requires forall other :: other in table && other != id ==> Database.Compatible(row, table[other])
    ensures IndexesHold(table[id := row])
  {
  }

  /** In a valid state the indexes hold. */
  lemma ValidIndexesHold(s: State)
    requires Inv(s)
    ensures IndexesHold(s.db.allocations)
  {
    hide UnitOk, AddressOk, InFlightOk, JobsOk, ServersOk, CpusDisjoint, AwaitsScale;
    forall a, b | a in s.db.allocations && b in s.db.allocations && a != b
      ensures s.db.allocations[a].computeId.Some? ==> s.db.allocations[a].computeId != s.db.allocations[b].computeId
      ensures s.db.allocations[a].status == s.db.allocations[b].status == AllocationStatus.Allocated ==>
                s.db.allocations[a].ipAddress != s.db.allocations[b].ipAddress
    {
      assert AllocationOk(s, a) && AllocationOk(s, b);
      if s.db.allocations[a].computeId.Some? {
        var c := s.db.allocations[a].computeId.value;
        assert Holds(s, a, c) && (s.db.allocations[b].computeId == Some(c) ==> Holds(s, b, c));
      }
    }
  }

  /** What an update of a unit stores: the clear flag wins, an absent argument leaves its column alone. */
  lemma UnitUpdateStores(d: Database, c: string, status: Option<UnitStatus>, owner: Option<string>, clear: bool)
    requires c in d.units && d.ReferencesKnown()
    ensures var p := Start(d).UpdateUnit(c, status, owner, clear);
            && (p.raised <==> !clear && owner.Some? && owner.value !in d.allocations)
            && (p.raised ==> p.db == d)
            && (!p.raised ==>
                  && p.db == d.(units := p.db.units) && p.db.units.Keys == d.units.Keys
                  && (forall other :: other in d.units && other != c ==> p.db.units[other] == d.units[other])
                  && p.db.units[c] == d.units[c].(status := p.db.units[c].status,
                                                  allocationId := p.db.units[c].allocationId)
                  && (status.Some? ==> p.db.units[c].status == status.value)
                  && (status.None? ==> p.db.units[c].status == d.units[c].status)
                  && (clear ==> p.db.units[c].allocationId == None)
                  && (!clear && owner.Some? ==> p.db.units[c].allocationId == owner)
                  && (!clear && owner.None? ==> p.db.units[c].allocationId == d.units[c].allocationId))
  {
  }

  /** The order of texts: a prefix comes first, otherwise the first difference decides. */
  lemma {:induction false} TextOrder(x: string, y: string)
    ensures StrLeq(x, y) <==>
            x <= y || exists k :: 0 <= k < |x| && k < |y| && x[..k] == y[..k] && x[k] < y[k]
  {
    if x != "" && y != "" {
      TextOrder(x[1..], y[1..]);
      if x[0] == y[0] {
        assert x <= y <==> x[1..] <= y[1..];
        if k :| 0 <= k < |x[1..]| && k < |y[1..]| && x[1..][..k] == y[1..][..k] && x[1..][k] < y[1..][k] {
          assert x[..k + 1] == [x[0]] + x[1..][..k] && y[..k + 1] == [y[0]] + y[1..][..k];
          assert x[k + 1] < y[k + 1];
        }
        if k :| 0 <= k < |x| && k < |y| && x[..k] == y[..k] && x[k] < y[k] {
          assert k > 0;
          assert x[1..][..k - 1] == x[..k][1..] && y[1..][..k - 1] == y[..k][1..];
          assert x[1..][k - 1] < y[1..][k - 1];
        }
      } else if x[0] < y[0] {
        assert x[..0] == y[..0];
      } else {
        forall k | 0 < k < |x| && k < |y| ensures x[..k] != y[..k] {
          assert x[..k][0] != y[..k][0];
        }
      }
    }
  }
}
