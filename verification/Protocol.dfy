/**
 The allocation lifecycle as a state machine. Every step is one handler invocation of the other
 modules, except that the scale worker takes two steps, one on each side of its playbook.
 */
module Protocol {
  import opened Administration
  import opened Allocations
  import opened CpuRange
  import opened Options
  import opened Repository
  import opened ServerSpecs
  import opened Tables
  import opened Workers

  /** The database and the local variables of the scale workers whose playbooks are running. */
  datatype State = State(db: Database, inFlight: map<string, ScaleJob>)

  datatype Event =
    | Allocate(request: AllocationRequest, plan: FaultPlan)
    | Deallocate(id: string)
    | Scale(id: string, scale: ScaleRequest, fault: CallFault)
    | InitServer(init: InitRequest)
    | Decommission(hostname: string)
    | DeleteServer(hostname: string)
    | InsertAddresses(addresses: seq<string>)
    | DeleteAddress(ip: string)
    | Probe(hostname: string, health: HealthStatus)
    | RunCreate(id: string, unit: string, result: PlaybookResult)
    | RunDelete(id: string, unit: string, result: PlaybookResult)
    | BeginScale(id: string, filter: Filter)
    | FinishScale(id: string, result: PlaybookResult)
    | RunInit(init: InitRequest, result: PlaybookResult)
    | RunDecomm(hostname: string, result: PlaybookResult)

  function InitialState(): State {
    State(Database(map[], map[], map[], map[], multiset{}), map[])
  }

  // ---- Guards ----

  predicate UnitsOn(d: Database, hostname: string) {
    exists c :: c in d.units && d.units[c].hostname == hostname
  }

  ghost predicate ServerJobFor(d: Database, hostname: string) {
    ServerDecomm(hostname) in d.jobs || exists r :: ServerInit(r) in d.jobs && r.hostname == hostname
  }

  predicate TargetOn(s: State, hostname: string) {
    exists a :: a in s.inFlight && s.inFlight[a].targetHost == hostname
  }

  /** The guard the web client applies before a deallocation, and the code does not. */
  predicate NotScaling(d: Database, id: string) {
    id in d.allocations ==> d.allocations[id].status != Scaling
  }

  ghost predicate InitGuard(s: State, hostname: string) {
    !UnitsOn(s.db, hostname) && !ServerJobFor(s.db, hostname)
  }

  ghost predicate DecommissionGuard(s: State, hostname: string) {
    !ServerJobFor(s.db, hostname) && !TargetOn(s, hostname)
  }

  /**
   Which steps may be taken: jobs only from the queue, init requests only valid ones, any fault of one
   call of `allocate` or of the enqueue of `scale` whose effect is not lost, and the three guards that
   the code leaves to its callers.
   */
  ghost predicate Allowed(s: State, e: Event) {
    match e
    case Allocate(_, plan) => !plan.LosesEffect()
    case Deallocate(id) => NotScaling(s.db, id)
    case Scale(_, _, fault) => fault != FailsAfter
    case InitServer(init) => ValidUnits(init.specs) && InitGuard(s, init.hostname)
    case Decommission(hostname) => DecommissionGuard(s, hostname)
    case RunCreate(id, unit, _) => AllocationCreate(id, unit) in s.db.jobs
    case RunDelete(id, unit, _) => AllocationDelete(id, unit) in s.db.jobs
    case BeginScale(id, filter) => AllocationScale(id, filter) in s.db.jobs
    case FinishScale(id, _) => id in s.inFlight
    case RunInit(init, _) => ValidUnits(init.specs) && ServerInit(init) in s.db.jobs
    case RunDecomm(hostname, _) => ServerDecomm(hostname) in s.db.jobs
    case _ => true
  }

  function Taken(d: Database, job: Command): Database {
    d.(jobs := d.jobs - multiset{job})
  }

  function Probed(d: Database, hostname: string, health: HealthStatus): Database {
    if hostname !in d.servers then d
    else d.(servers := d.servers[hostname := d.servers[hostname].(health := health)])
  }

  ghost function Step(s: State, e: Event): State
    requires Allowed(s, e)
  {
    match e
    case Allocate(request, plan) => s.(db := AllocateOutcome(s.db, request, plan).0)
    case Deallocate(id) => s.(db := DeallocateOutcome(s.db, id).0)
    case Scale(id, scale, fault) => s.(db := ScaleOutcome(s.db, id, scale, fault).0)
    case InitServer(init) => s.(db := InitServerOutcome(s.db, init).db)
    case Decommission(hostname) => s.(db := DecommissionOutcome(s.db, hostname).0)
    case DeleteServer(hostname) => s.(db := DeleteServerOutcome(s.db, hostname).0)
    case InsertAddresses(addresses) => s.(db := InsertAddressesOutcome(s.db, addresses).0)
    case DeleteAddress(ip) => s.(db := DeleteAddressOutcome(s.db, ip).0)
    case Probe(hostname, health) => s.(db := Probed(s.db, hostname, health))
    case RunCreate(id, unit, result) =>
      s.(db := CreateFinished(Taken(s.db, AllocationCreate(id, unit)), id, unit, result.Successful?).db)
    case RunDelete(id, unit, result) =>
      s.(db := DeleteFinished(Taken(s.db, AllocationDelete(id, unit)), id, unit, result.Successful?).db)
    case BeginScale(id, filter) =>
      var (db, job) := ScaleBegun(Taken(s.db, AllocationScale(id, filter)), id, filter);
      State(db, if job.None? then s.inFlight else s.inFlight[id := job.value])
    case FinishScale(id, result) =>
      State(ScaleFinished(s.db, id, s.inFlight[id], result.Successful?).db, s.inFlight - {id})
    case RunInit(init, result) => s.(db := InitFinished(Taken(s.db, ServerInit(init)), init, result).db)
    case RunDecomm(hostname, result) =>
      s.(db := DecommFinished(Taken(s.db, ServerDecomm(hostname)), hostname, result).db)
  }

  // ---- The invariant ----

  /** What the status of a placed allocation says about its unit, the unit's owner and its address. */
  function UnitStatusFor(status: AllocationStatus): UnitStatus {
    match status
    case Allocating => UnitStatus.Allocating
    case Allocated => UnitStatus.Allocated
    case Scaling => UnitStatus.Allocated
    case ScaleFail => UnitStatus.Allocated
    case AllocationFail => UnitStatus.AllocationFail
    case Deallocating => UnitStatus.Deallocating
    case DeallocationFail => UnitStatus.DeallocationFail
    case Requested => UnitStatus.Unavailable
    case Deallocated => UnitStatus.Unavailable
  }

  function UnitOwnerFor(status: AllocationStatus, id: string): Option<string> {
    if status == AllocationStatus.AllocationFail then None else Some(id)
  }

  function IpStatusFor(status: AllocationStatus): IpStatus {
    match status
    case Allocating => IpStatus.Reserved
    case AllocationFail => IpStatus.Reserved
    case Deallocating => IpStatus.Releasing
    case _ => IpStatus.Allocated
  }

  predicate Holds(s: State, a: string, c: string) {
    a in s.db.allocations && s.db.allocations[a].computeId == Some(c)
  }

  predicate Targets(s: State, a: string, c: string) {
    a in s.inFlight && s.inFlight[a].target == c
  }

  ghost predicate AwaitsScale(s: State, a: string) {
    exists filter :: AllocationScale(a, filter) in s.db.jobs
  }

  predicate Terminal(row: Allocation) {
    row.computeId.None?
  }

  /** An allocation's status fixes its placement, its unit, its address and its pending job. */
  ghost predicate AllocationOk(s: State, a: string)
    requires a in s.db.allocations
  {
    var row := s.db.allocations[a];
    match row.computeId
    case None =>
      row.currentHost.None? && (row.status == Deallocated || row.status == AllocationStatus.AllocationFail)
    case Some(c) =>
      && row.status != Deallocated && row.status != Requested
      && c in s.db.units
      && row.currentHost == Some(s.db.units[c].hostname)
      && s.db.units[c].status == UnitStatusFor(row.status)
      && s.db.units[c].allocationId == UnitOwnerFor(row.status, a)
      && row.ipAddress in s.db.pool
      && s.db.pool[row.ipAddress] == IpAddress(IpStatusFor(row.status), Some(a), row.currentHost)
      && (row.status == AllocationStatus.Allocating ==> AllocationCreate(a, c) in s.db.jobs)
      && (row.status == AllocationStatus.Deallocating ==> AllocationDelete(a, c) in s.db.jobs)
      && (row.status == Scaling ==> a in s.inFlight || AwaitsScale(s, a))
  }

  /** A free unit has no owner; any other unit is held or is a running scale's target, on a ready host. */
  ghost predicate UnitOk(s: State, c: string)
    requires c in s.db.units
  {
    var row := s.db.units[c];
    && c == ComputeIds.ComputeId(row.hostname, row.ordinal)
    && row.hostname in s.db.servers
    && (row.status == UnitStatus.Free ==> row.allocationId.None?)
    && (row.status != UnitStatus.Free ==>
          && s.db.servers[row.hostname].status == Ready
          && exists a :: Holds(s, a, c) || Targets(s, a, c))
  }

  /** A free address has no owner; any other address belongs to one placed allocation. */
  ghost predicate AddressOk(s: State, ip: string)
    requires ip in s.db.pool
  {
    var row := s.db.pool[ip];
    if row.status == IpStatus.Free then row == FREE_ADDRESS
    else
      && row.allocationId.Some? && row.allocationId.value in s.db.allocations
      && var owner := s.db.allocations[row.allocationId.value];
      owner.computeId.Some? && owner.ipAddress == ip
  }

  /** A running scale remembers the placement its allocation still has, and a locked target. */
  ghost predicate InFlightOk(s: State, a: string)
    requires a in s.inFlight
  {
    var job := s.inFlight[a];
    && a in s.db.allocations
    && var row := s.db.allocations[a];
    && row.status == Scaling && row.computeId == Some(job.source) && row.ipAddress == job.ipAddress
    && row.currentHost == Some(job.sourceHost)
    && job.target in s.db.units
    && s.db.units[job.target].status == UnitStatus.Allocating
    && s.db.units[job.target].allocationId.None?
    && s.db.units[job.target].hostname == job.targetHost
    && !AwaitsScale(s, a)
  }

  ghost predicate JobOk(s: State, job: Command) {
    match job
    case AllocationCreate(a, c) => Holds(s, a, c) && s.db.allocations[a].status == AllocationStatus.Allocating
    case AllocationDelete(a, c) => Holds(s, a, c) && s.db.allocations[a].status == AllocationStatus.Deallocating
    case AllocationScale(a, _) => a in s.db.allocations && s.db.allocations[a].status == Scaling
    case ServerInit(r) =>
      r.hostname in s.db.servers && s.db.servers[r.hostname].status == Initializing && ValidUnits(r.specs)
    case ServerDecomm(h) => h in s.db.servers && s.db.servers[h].status == Decommissioning
  }

  /** Hosts in these states have no unit rows. */
  predicate Bare(status: ServerStatus) {
    status == Initializing || status == InitFail || status == Decommissioned
  }

  /** Two jobs that must not be queued together. */
  predicate Rival(x: Command, y: Command) {
    || (x.AllocationScale? && y.AllocationScale? && x.allocationId == y.allocationId)
    || (x.ServerInit? && y.ServerInit? && x.request.hostname == y.request.hostname)
  }

  ghost predicate JobsOk(s: State) {
    && (forall job :: job in s.db.jobs ==> JobOk(s, job) && s.db.jobs[job] == 1)
    && (forall x, y :: x in s.db.jobs && y in s.db.jobs && Rival(x, y) ==> x == y)
  }

  ghost predicate Exclusive(s: State) {
    && (forall a, b, c :: Holds(s, a, c) && Holds(s, b, c) ==> a == b)
    && (forall a, b, c :: Targets(s, a, c) && Targets(s, b, c) ==> a == b)
  }

  ghost predicate LoginsDistinct(s: State) {
    forall a, b :: a in s.db.allocations && b in s.db.allocations && a != b
                   && s.db.allocations[a].status != Deallocated && s.db.allocations[b].status != Deallocated
                   ==> s.db.allocations[a].loginUser != s.db.allocations[b].loginUser
  }

  /** The units of one host share no CPU. */
  ghost predicate CpusDisjoint(units: map<string, ComputeUnit>) {
    forall c, e :: c in units && e in units && c != e && units[c].hostname == units[e].hostname
                   ==> CpusOf(units[c].cpuSet) !! CpusOf(units[e].cpuSet)
  }

  ghost predicate ServersOk(s: State) {
    forall c :: c in s.db.units && s.db.units[c].hostname in s.db.servers
                ==> !Bare(s.db.servers[s.db.units[c].hostname].status)
  }

  ghost predicate Inv(s: State) {
    && (forall a :: a in s.db.allocations ==> AllocationOk(s, a))
    && (forall c :: c in s.db.units ==> UnitOk(s, c))
    && (forall ip :: ip in s.db.pool ==> AddressOk(s, ip))
    && (forall a :: a in s.inFlight ==> InFlightOk(s, a))
    && JobsOk(s)
    && Exclusive(s)
    && LoginsDistinct(s)
    && ServersOk(s)
    && CpusDisjoint(s.db.units)
  }

  lemma InitialStateIsValid()
    ensures Inv(InitialState())
  {
  }
}
