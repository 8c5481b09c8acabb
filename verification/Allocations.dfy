/** `AllocationService`: the API side of the allocation lifecycle (kloigos/services/allocation.py). */
module Allocations {
  import opened Collections
  import opened LoginNames
  import opened Options
  import opened Repository
  import opened Tables
  import opened Text

  // ---- Identity ----

  /** Tag values are strings here; an absent dictionary is an empty one. */
  datatype AllocationRequest = AllocationRequest(
    allocationId: Option<string>, loginUser: Option<string>, filter: Filter, tags: map<string, string>)

  /** Python's `x or other`: an empty string counts as absent. */
  function OrElse(x: Option<string>, other: string): string {
    if x.Some? && x.value != "" then x.value else other
  }

  function Tag(request: AllocationRequest, key: string): Option<string> {
    if key in request.tags then Some(request.tags[key]) else None
  }

  /** `_request_allocation_identity`: allocation id and login user. */
  function Identity(request: AllocationRequest, computeId: string): (string, string) {
    var tagged := OrElse(Tag(request, "allocation_id"), OrElse(Tag(request, "deployment_id"), computeId));
    var allocationId := Strip(OrElse(request.allocationId, tagged));
    (allocationId, Strip(OrElse(request.loginUser, allocationId)))
  }

  const RESERVED_LOGIN_USERS := {
    "root", "daemon", "bin", "sys", "sync", "games", "man", "lp", "mail", "news", "uucp", "proxy",
    "www-data", "backup", "list", "irc", "gnats", "nobody", "systemd-network", "systemd-resolve",
    "systemd-timesync"
  }

  predicate LoginStart(c: char) {
    'a' <= c <= 'z' || '0' <= c <= '9'
  }

  /** `_validate_login_user`. */
  predicate ValidLogin(login: string) {
    && 1 <= |login| <= 32
    && LoginStart(login[0])
    && (forall i :: 1 <= i < |login| ==> LoginStart(login[i]) || login[i] == '_' || login[i] == '-')
    && login !in RESERVED_LOGIN_USERS
    && !("systemd-" <= login)
  }

  /** The pattern, the set and the prefix test together are the rule. */
  lemma ValidLoginIsProper(login: string)
    ensures ValidLogin(login) <==> ProperLogin(login)
  {
    hide SystemAccount;
    ReservedIsSystemAccount(login);
    if |login| > 0 {
      assert forall i :: 1 <= i < |login| ==> LoginStart(login[i]) == (LowerCase(login[i]) || DecimalDigit(login[i]));
    }
  }

  lemma ReservedIsSystemAccount(login: string)
    ensures login in RESERVED_LOGIN_USERS <==> SystemAccount(login)
  {
  }

  predicate LoginActive(d: Database, login: string) {
    exists a :: a in d.allocations && d.allocations[a].loginUser == login && d.allocations[a].status != Deallocated
  }

  // ---- Allocate ----

  /** The calls `allocate` makes after it has locked a compute unit; `ReturnUnit` only when no address is free. */
  datatype AllocateCall =
    | FindById | FindByLogin | ClaimIp | ReturnUnit | Audit | InsertRow | AssignIp | AssignUnit | Enqueue

  datatype FaultPlan = NoFault | FaultAt(call: AllocateCall, fault: CallFault) {
    function For(c: AllocateCall): CallFault {
      if FaultAt? && call == c then fault else Works
    }

    predicate Hits(c: AllocateCall) {
      For(c) != Works
    }

    /** The call took effect, but `allocate` never learns of it: no variable its compensation reads was set. */
    predicate LosesEffect() {
      For(ClaimIp) == FailsAfter || For(InsertRow) == FailsAfter || For(Enqueue) == FailsAfter
    }
  }

  datatype AllocateError =
    | NoFreeComputeUnit | NoFreeIpAddress | IdExists | LoginInvalid | LoginInUse | PreparationFailed

  datatype AllocateReply = Accepted(allocationId: string) | Refused(error: AllocateError)

  /** The unit freed and disowned, as every exit of `allocate` but success leaves it. */
  function FreedUnit(d: Database, id: string): Database
    requires id in d.units
  {
    d.(units := d.units[id := d.units[id].(status := UnitStatus.Free, allocationId := None)])
  }

  function NewRow(login: string, ip: string, computeId: string, hostname: string): Allocation {
    Allocation(login, ip, Some(computeId), Some(hostname), AllocationStatus.Allocating)
  }

  /** What an accepted request stores: three linked rows and one job. */
  function AllocatedDb(d: Database, id: string, row: Allocation, unit: string): Database
    requires unit in d.units && row.ipAddress in d.pool
  {
    d.(units := d.units[unit := d.units[unit].(status := UnitStatus.Allocating, allocationId := Some(id))],
       pool := d.pool[row.ipAddress := IpAddress(IpStatus.Reserved, Some(id), row.currentHost)],
       allocations := d.allocations[id := row],
       jobs := d.jobs + multiset{AllocationCreate(id, unit)})
  }

  /** Why a request is turned away before an address is claimed, if it is. */
  ghost function Admission(d: Database, id: string, login: string, plan: FaultPlan): (r: Option<AllocateError>)
    ensures r.None? ==> id !in d.allocations && PickIp(d.pool).Some?
  {
    if plan.Hits(FindById) then Some(PreparationFailed) else
    if id in d.allocations then Some(IdExists) else
    if !ValidLogin(login) then Some(LoginInvalid) else
    if plan.Hits(FindByLogin) then Some(PreparationFailed) else
    if LoginActive(d, login) then Some(LoginInUse) else
    if plan.Hits(ClaimIp) then Some(PreparationFailed) else
    if PickIp(d.pool).None? then Some(if plan.Hits(ReturnUnit) then PreparationFailed else NoFreeIpAddress) else None
  }

  /**
   What `allocate` amounts to once its compensation has run: one case per way out, each giving the
   final tables directly.
   */
  ghost function AllocateOutcome(d: Database, request: AllocationRequest, plan: FaultPlan): (Database, AllocateReply) {
    var pick := PickUnit(d, request.filter);
    if pick.None? then (d, Refused(NoFreeComputeUnit)) else AllocateOn(d, request, plan, pick.value)
  }

  /** The same once this unit is locked. */
  ghost function AllocateOn(d: Database, request: AllocationRequest, plan: FaultPlan, unit: string)
    : (Database, AllocateReply)
    requires unit in d.units
  {
    var (id, login) := Identity(request, unit);
    var freed := FreedUnit(d, unit);
    var refusal := Admission(d, id, login, plan);
    if refusal.Some? then
      var claimLost := refusal.value == PreparationFailed && plan.For(ClaimIp) == FailsAfter;
      (if claimLost then freed.(pool := LockIp(d.pool)) else freed, Refused(refusal.value))
    else
    var row := NewRow(login, PickIp(d.pool).value, unit, d.units[unit].hostname);
    var fate := FateOf(plan, d.AcceptsAllocation(id, row));
    (Settled(d, id, row, unit, fate), if fate.Complete? then Accepted(id) else Refused(PreparationFailed))
  }

  /** How far the statements after the claim of an address get before one of them raises. */
  datatype Fate = NothingStored | RowUnreported | RowStored | JobUnreported | Complete

  function FateOf(plan: FaultPlan, accepted: bool): Fate {
    if plan.Hits(Audit) || plan.For(InsertRow) == FailsBefore || !accepted then NothingStored
    else if plan.For(InsertRow) == FailsAfter then RowUnreported
    else if plan.Hits(AssignIp) || plan.Hits(AssignUnit) || plan.For(Enqueue) == FailsBefore then RowStored
    else if plan.For(Enqueue) == FailsAfter then JobUnreported
    else Complete
  }

  /** The tables once the claim of an address was followed by this fate and, unless complete, by compensation. */
  function Settled(d: Database, id: string, row: Allocation, unit: string, fate: Fate): Database
    requires unit in d.units && row.ipAddress in d.pool
  {
    var released := FreedUnit(d, unit).(pool := d.pool[row.ipAddress := FREE_ADDRESS]);
    match fate
    case NothingStored => released
    case RowUnreported => released.(allocations := d.allocations[id := row])
    case RowStored => released.(allocations := d.allocations[id := Abandoned(row)])
    case JobUnreported =>
      released.(allocations := d.allocations[id := Abandoned(row)],
                jobs := d.jobs + multiset{AllocationCreate(id, unit)})
    case Complete => AllocatedDb(d, id, row, unit)
  }

  /** The row a failed request leaves behind. */
  function Abandoned(row: Allocation): Allocation {
    row.(status := AllocationStatus.AllocationFail, computeId := None, currentHost := None)
  }

  // ---- Deallocate and scale ----

  datatype DeallocateReply = DeleteQueued | NoSuchAllocation | NoPlacement | NoSuchUnit | WrongUnitStatus | NotPrepared

  /** The unit statuses from which `deallocate` proceeds; the allocation's own status is not looked at. */
  predicate Deallocatable(status: UnitStatus) {
    status == UnitStatus.Allocated || status == UnitStatus.AllocationFail || status == UnitStatus.DeallocationFail
  }

  function DeallocateOutcome(d: Database, id: string): (Database, DeallocateReply) {
    if id !in d.allocations then (d, DeallocateReply.NoSuchAllocation) else
    var row := d.allocations[id];
    if row.computeId.None? then (d, DeallocateReply.NoPlacement) else
    var unit := row.computeId.value;
    if unit !in d.units then (d, DeallocateReply.NoSuchUnit) else
    if !Deallocatable(d.units[unit].status) then (d, WrongUnitStatus) else
    var p := Start(d)
             .UpdateUnit(unit, Some(UnitStatus.Deallocating), Some(id), false)
             .UpdateAllocation(id, Some(AllocationStatus.Deallocating), None, None)
             .UpdateAddress(row.ipAddress, Some(IpStatus.Releasing), None, None);
    if p.raised then (p.db, NotPrepared)
    else (p.db.(jobs := d.jobs + multiset{AllocationDelete(id, unit)}), DeleteQueued)
  }

  datatype ScaleRequest = ScaleRequest(cpuCount: int, region: Option<string>, zone: Option<string>)

  function ScaleFilter(request: ScaleRequest): Filter {
    Filter(request.region, request.zone, Some(request.cpuCount))
  }

  datatype ScaleReply =
    | ScaleQueued | NoSuchAllocation | NoPlacement | WrongStatus | NoSuchUnit | SameSize | NotUpdated | EnqueueFailed

  /** A failed enqueue is answered by putting the status back, whether or not the job was queued. */
  function ScaleOutcome(d: Database, id: string, request: ScaleRequest, fault: CallFault): (Database, ScaleReply) {
    if id !in d.allocations then (d, ScaleReply.NoSuchAllocation) else
    var row := d.allocations[id];
    if row.computeId.None? then (d, ScaleReply.NoPlacement) else
    if row.status != AllocationStatus.Allocated then (d, WrongStatus) else
    if row.computeId.value !in d.units then (d, ScaleReply.NoSuchUnit) else
    if d.units[row.computeId.value].cpuCount == request.cpuCount then (d, SameSize) else
    var p := Start(d).UpdateAllocation(id, Some(Scaling), None, None);
    if p.raised then (d, NotUpdated) else
    var queued := p.db.(jobs := d.jobs + multiset{AllocationScale(id, ScaleFilter(request))});
    match fault
    case Works => (queued, ScaleQueued)
    case FailsBefore => (p.UpdateAllocation(id, Some(AllocationStatus.Allocated), None, None).db, EnqueueFailed)
    case FailsAfter => (Start(queued).UpdateAllocation(id, Some(AllocationStatus.Allocated), None, None).db,
        EnqueueFailed)
  }

  /** The tables `d` on the way from `before`: what each fate has already stored. */
  ghost predicate Linking(before: Database, d: Database, id: string, row: Allocation, unit: string, fate: Fate)
    requires unit in before.units && row.ipAddress in before.pool
  {
    && d.servers == before.servers
    && d.allocations == (if fate.NothingStored? then before.allocations else before.allocations[id := row])
    && d.jobs == (if fate.JobUnreported? || fate.Complete?
                  then before.jobs + multiset{AllocationCreate(id, unit)} else before.jobs)
    && unit in d.units && row.ipAddress in d.pool
    && d.units == before.units[unit := before.units[unit].(allocationId := d.units[unit].allocationId)]
    && d.pool == before.pool[row.ipAddress := d.pool[row.ipAddress]]
    && (fate.Complete? ==> d.units[unit].allocationId == Some(id)
                           && d.pool[row.ipAddress] == IpAddress(IpStatus.Reserved, Some(id), row.currentHost))
  }

  class AllocationService {
    const repo: Repo

    constructor (repo: Repo)
      ensures this.repo == repo
    {
      this.repo := repo;
    }

    /**
     The checks of the `try` block, up to and including the claim of an address; without one the unit is
     given back at once.
     */
    method Admit(id: string, login: string, unit: string, plan: FaultPlan)
      returns (refusal: Option<AllocateError>, ip: Option<string>)
      requires unit in repo.units
      modifies repo`pool, repo`units
      ensures refusal == Admission(old(repo.Db()), id, login, plan)
      ensures repo.pool == if refusal.None? || (refusal.value == PreparationFailed && plan.For(ClaimIp) == FailsAfter)
                           then LockIp(old(repo.pool)) else old(repo.pool)
      ensures ip == if refusal.None? then PickIp(old(repo.pool)) else None
      ensures repo.units == old(repo.units) || (refusal.Some? && repo.units == FreedUnit(old(repo.Db()), unit).units)
      ensures refusal == Some(NoFreeIpAddress) ==> repo.units == FreedUnit(old(repo.Db()), unit).units
      ensures refusal.None? ==> ProperLogin(login)
      ensures refusal == Some(LoginInvalid) ==> !ProperLogin(login)
    {
      ValidLoginIsProper(login);
      hide ValidLogin, ProperLogin;
      var raised, existing := repo.FindAllocation(id, plan.For(FindById));
      if raised { return Some(PreparationFailed), None; }
      if existing.Some? { return Some(IdExists), None; }
      if !ValidLogin(login) { return Some(LoginInvalid), None; }
      var inUse;
      raised, inUse := repo.LoginInUse(login, plan.For(FindByLogin));
      if raised { return Some(PreparationFailed), None; }
      if inUse { return Some(LoginInUse), None; }
      raised, ip := repo.LockIpPoolAddress(plan.For(ClaimIp));
      if raised { return Some(PreparationFailed), None; }
      if ip.None? {
        raised := repo.UpdateComputeUnit(unit, Some(UnitStatus.Free), None, true, plan.For(ReturnUnit));
        return Some(if raised then PreparationFailed else NoFreeIpAddress), None;
      }
      refusal := None;
    }

    /** The rest of the `try` block: it links the three rows and queues the job. */
    method Record(id: string, row: Allocation, unit: string, plan: FaultPlan)
      returns (inserted: bool, ghost fate: Fate, raised: bool)
      requires id !in repo.allocations && unit in repo.units && row.ipAddress in repo.pool
      requires row.currentHost.Some? && row.currentHost.value in repo.servers
      modifies repo`allocations, repo`pool, repo`units, repo`jobs
      ensures fate == FateOf(plan, old(repo.Db()).AcceptsAllocation(id, row))
      ensures inserted <==> fate.RowStored? || fate.JobUnreported? || fate.Complete?
      ensures raised <==> !fate.Complete?
      ensures Linking(old(repo.Db()), repo.Db(), id, row, unit, fate)
    {
      hide Database.AcceptsAllocation;
      fate := FateOf(plan, repo.Db().AcceptsAllocation(id, row));
      inserted := false;
      raised := repo.LogEvent(plan.For(Audit));
      if raised { return; }
      raised := repo.InsertAllocation(id, row, plan.For(InsertRow));
      if raised { return; }
      inserted := true;
      raised := Link(id, row, unit, plan);
    }

    /** The three calls after the row is stored. */
    method Link(id: string, row: Allocation, unit: string, plan: FaultPlan) returns (raised: bool)
      requires id in repo.allocations && unit in repo.units && row.ipAddress in repo.pool
      requires row.currentHost.Some? && row.currentHost.value in repo.servers
      modifies repo`pool, repo`units, repo`jobs
      ensures raised <==> plan.Hits(AssignIp) || plan.Hits(AssignUnit) || plan.Hits(Enqueue)
      ensures Linking(old(repo.Db()), repo.Db().(allocations := old(repo.allocations)[id := row]), id, row, unit,
                      if !raised then Complete else if plan.For(Enqueue) == FailsAfter then JobUnreported
                          else RowStored)
    {
      raised := repo.UpdateIpPoolAddress(row.ipAddress, Some(IpStatus.Reserved), Some(id), row.currentHost,
          plan.For(AssignIp));
      if raised { return; }
      raised := repo.UpdateComputeUnit(unit, None, Some(id), false, plan.For(AssignUnit));
      if raised { return; }
      raised := repo.EnqueueCommand(AllocationCreate(id, unit), plan.For(Enqueue));
    }

    /** The compensation block: the placement is cleared, the address and the unit are given back. */
    method GiveBack(unit: string, ip: Option<string>, inserted: Option<string>)
      requires unit in repo.units
      requires inserted.Some? ==> inserted.value in repo.allocations
                                  && repo.Db().AcceptsAllocation(inserted.value,
                                    Abandoned(repo.allocations[inserted.value]))
      modifies repo`allocations, repo`pool, repo`units
      ensures repo.allocations == if inserted.None? then old(repo.allocations)
                                  else old(repo.allocations)[
                                         inserted.value := Abandoned(old(repo.allocations)[inserted.value])]
      ensures repo.pool == if ip.Some? && ip.value in old(repo.pool)
                           then old(repo.pool)[ip.value := FREE_ADDRESS] else old(repo.pool)
      ensures repo.units == FreedUnit(old(repo.Db()), unit).units
    {
      if inserted.Some? {
        var _ := repo.ClearAllocationPlacement(inserted.value, Some(AllocationStatus.AllocationFail));
      }
      if ip.Some? {
        repo.ReleaseIpPoolAddress(ip.value);
      }
      var _ := repo.UpdateComputeUnit(unit, Some(UnitStatus.Free), None, true);
    }

    /** The claimed unit and address become an allocation, or both are given back. */
    method Prepare(id: string, row: Allocation, unit: string, plan: FaultPlan, ghost d: Database)
      returns (reply: AllocateReply)
      requires unit in d.units && row.ipAddress in d.pool && id !in d.allocations
      requires row.computeId == Some(unit) && row.currentHost == Some(d.units[unit].hostname)
      requires row.status == AllocationStatus.Allocating
      requires repo.Db() == d.(units := d.units[unit := d.units[unit].(status := UnitStatus.Allocating)],
                               pool := d.pool[row.ipAddress := d.pool[row.ipAddress].(status := IpStatus.Reserved)])
      requires d.units[unit].hostname in d.servers
      modifies repo`allocations, repo`pool, repo`units, repo`jobs
      ensures var fate := FateOf(plan, d.AcceptsAllocation(id, row));
              && repo.Db() == Settled(d, id, row, unit, fate)
              && reply == if fate.Complete? then Accepted(id) else Refused(PreparationFailed)
    {
      hide Database.AcceptsAllocation, FateOf, Settled, Linking;
      ghost var locked := repo.Db();
      AcceptanceIgnoresStatus(d, locked, id, row);
      var inserted, fate, raised := Record(id, row, unit, plan);
      ghost var linked := repo.Db();
      LinkingFacts(locked, linked, id, row, unit, fate);
      if raised {
        if inserted {
          AcceptedIfStored(plan, locked.AcceptsAllocation(id, row));
          AbandonedIsAccepted(locked, linked, id, row);
        }
        GiveBack(unit, Some(row.ipAddress), if inserted then Some(id) else None);
        reply := Refused(PreparationFailed);
      } else {
        reply := Accepted(id);
      }
      SettledAfter(d, linked, repo.Db(), id, row, unit, fate);
    }

    /** The `try` block and its handlers, once the unit is locked. */
    method Proceed(request: AllocationRequest, plan: FaultPlan, unit: string, ghost d: Database)
        returns (reply: AllocateReply)
      requires unit in d.units && d.units[unit].hostname in d.servers
      requires repo.Db() == d.(units := d.units[unit := d.units[unit].(status := UnitStatus.Allocating)])
      modifies repo
      ensures (repo.Db(), reply) == AllocateOn(d, request, plan, unit)
    {
      hide ValidLogin, Strip, Admission, Settled, FateOf, Identity, Linking, LoginActive;
      var hostname := repo.units[unit].hostname;
      var (id, login) := Identity(request, unit);
      AdmissionIgnoresUnits(d, repo.Db(), id, login, plan);
      var refusal, ip := Admit(id, login, unit, plan);
      if refusal.Some? {
        // No row was inserted and no address is known, so there is only the unit to give back.
        ghost var locked, admitted := d.units[unit := d.units[unit].(status := UnitStatus.Allocating)], repo.units;
        if refusal != Some(NoFreeIpAddress) {
          GiveBack(unit, None, None);
        }
        Overwrite(locked, unit, admitted[unit], repo.units[unit]);
        Overwrite(d.units, unit, d.units[unit].(status := UnitStatus.Allocating), repo.units[unit]);
        return Refused(refusal.value);
      }
      reply := Prepare(id, NewRow(login, ip.value, unit, hostname), unit, plan, d);
    }

    /** `allocate`: the compensation calls themselves do not fail. */
    method Allocate(request: AllocationRequest, plan: FaultPlan) returns (reply: AllocateReply)
      requires repo.Db().IdsGenerated()
      modifies repo
      ensures (repo.Db(), reply) == AllocateOutcome(old(repo.Db()), request, plan)
    {
      hide AllocateOn, Database.IdsGenerated, UnitLeq;
      ghost var d := repo.Db();
      var claim := repo.LockComputeUnit(request.filter);
      if claim.None? {
        return Refused(NoFreeComputeUnit);
      }
      reply := Proceed(request, plan, claim.value, d);
    }

    method Deallocate(id: string) returns (reply: DeallocateReply)
      modifies repo
      ensures (repo.Db(), reply) == DeallocateOutcome(old(repo.Db()), id)
    {
      var _, row := repo.FindAllocation(id);
      if row.None? { return DeallocateReply.NoSuchAllocation; }
      if row.value.computeId.None? { return DeallocateReply.NoPlacement; }
      var unit := row.value.computeId.value;
      if unit !in repo.units { return DeallocateReply.NoSuchUnit; }
      var _ := repo.LogEvent();
      if !Deallocatable(repo.units[unit].status) { return WrongUnitStatus; }
      var raised := repo.UpdateComputeUnit(unit, Some(UnitStatus.Deallocating), Some(id));
      if raised { return NotPrepared; }
      raised := repo.UpdateAllocation(id, Some(AllocationStatus.Deallocating));
      if raised { return NotPrepared; }
      raised := repo.UpdateIpPoolAddress(row.value.ipAddress, Some(IpStatus.Releasing));
      if raised { return NotPrepared; }
      raised := repo.EnqueueCommand(AllocationDelete(id, unit));
      return DeleteQueued;
    }

    method Scale(id: string, request: ScaleRequest, fault: CallFault) returns (reply: ScaleReply)
      modifies repo
      ensures (repo.Db(), reply) == ScaleOutcome(old(repo.Db()), id, request, fault)
      ensures reply == ScaleReply.ScaleQueued ==>
                repo.jobs == old(repo.jobs) + multiset{
                  AllocationScale(id, Filter(request.region, request.zone, Some(request.cpuCount)))}
    {
      var _, row := repo.FindAllocation(id);
      if row.None? { return ScaleReply.NoSuchAllocation; }
      if row.value.computeId.None? { return ScaleReply.NoPlacement; }
      if row.value.status != AllocationStatus.Allocated { return WrongStatus; }
      var source := row.value.computeId.value;
      if source !in repo.units { return ScaleReply.NoSuchUnit; }
      if repo.units[source].cpuCount == request.cpuCount { return SameSize; }
      var raised := repo.UpdateAllocation(id, Some(Scaling));
      if raised { return NotUpdated; }
      raised := repo.LogEvent();
      raised := repo.EnqueueCommand(AllocationScale(id, ScaleFilter(request)), fault);
      if raised {
        raised := repo.UpdateAllocation(id, Some(AllocationStatus.Allocated));
        return EnqueueFailed;
      }
      return ScaleQueued;
    }
  }

  lemma AdmissionIgnoresUnits(d: Database, e: Database, id: string, login: string, plan: FaultPlan)
    requires d.allocations == e.allocations && d.pool == e.pool
    ensures Admission(d, id, login, plan) == Admission(e, id, login, plan)
  {
    hide ValidLogin;
  }

  lemma LinkingFacts(before: Database, d: Database, id: string, row: Allocation, unit: string, fate: Fate)
    requires unit in before.units && row.ipAddress in before.pool && Linking(before, d, id, row, unit, fate)
    ensures unit in d.units && row.ipAddress in d.pool
    ensures !fate.NothingStored? ==> d.allocations == before.allocations[id := row]
  {
  }

  /** Undoing whatever was linked leaves no trace of it but the abandoned row. */
  lemma SettledAfter(d: Database, linked: Database, final: Database, id: string, row: Allocation, unit: string,
      fate: Fate)
    requires unit in d.units && row.ipAddress in d.pool && id !in d.allocations
    requires Linking(d.(units := d.units[unit := d.units[unit].(status := UnitStatus.Allocating)],
                        pool := d.pool[row.ipAddress := d.pool[row.ipAddress].(status := IpStatus.Reserved)]),
                     linked, id, row, unit, fate)
    requires if fate.Complete? then final == linked
             else final == FreedUnit(linked, unit).(
                             pool := linked.pool[row.ipAddress := FREE_ADDRESS],
                             allocations := if fate.RowStored? || fate.JobUnreported?
                                            then linked.allocations[id := Abandoned(row)] else linked.allocations)
    ensures final == Settled(d, id, row, unit, fate)
  {
    Overwrite(d.units, unit, d.units[unit].(status := UnitStatus.Allocating), linked.units[unit]);
    Overwrite(d.units, unit, linked.units[unit], final.units[unit]);
    Overwrite(d.pool, row.ipAddress, d.pool[row.ipAddress].(status := IpStatus.Reserved), linked.pool[row.ipAddress]);
    Overwrite(d.pool, row.ipAddress, linked.pool[row.ipAddress], FREE_ADDRESS);
    Overwrite(d.allocations, id, row, Abandoned(row));
  }

  lemma AcceptedIfStored(plan: FaultPlan, accepted: bool)
    ensures FateOf(plan, accepted) != NothingStored ==> accepted
  {
  }

  lemma AcceptanceIgnoresStatus(d: Database, e: Database, id: string, row: Allocation)
    requires d.allocations == e.allocations && d.units.Keys == e.units.Keys && d.servers.Keys == e.servers.Keys
    ensures d.AcceptsAllocation(id, row) == e.AcceptsAllocation(id, row)
  {
  }

  lemma AbandonedIsAccepted(d: Database, e: Database, id: string, row: Allocation)
    requires d.AcceptsAllocation(id, row) && e.allocations == d.allocations[id := row]
    requires row.status != Deallocated
    ensures e.AcceptsAllocation(id, Abandoned(row))
  {
    forall other | other in e.allocations && other != id
      ensures Database.Compatible(Abandoned(row), e.allocations[other])
    {
      assert Database.Compatible(row, d.allocations[other]);
    }
  }
}
