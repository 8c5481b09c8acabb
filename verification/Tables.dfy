/**
 The four linked tables and the job queue (kloigos/resources/database/ddl.sql), and what each SQL
 statement of kloigos/repos/postgres.py does to them. Tags and timestamps are not part of this model.
 */
module Tables {
  import opened Collections
  import opened ComputeIds
  import opened Options
  import opened ServerSpecs
  import opened StringOrder

  datatype ServerStatus = Initializing | InitFail | Ready | Decommissioning | Decommissioned | DecommissionFail

  datatype HealthStatus = Unknown | Healthy | Degraded | Unreachable

  datatype UnitStatus = Free | Allocating | Allocated | AllocationFail | Deallocating | DeallocationFail | Unavailable

  datatype AllocationStatus =
    | Requested | Allocating | Allocated | Scaling | ScaleFail
    | Deallocating | Deallocated | AllocationFail | DeallocationFail

  datatype IpStatus = Free | Reserved | Allocated | Releasing | Unavailable

  datatype Server = Server(status: ServerStatus, health: HealthStatus, region: string, zone: string)

  datatype ComputeUnit = ComputeUnit(
    hostname: string, ordinal: nat, cpuRange: string, cpuCount: int, cpuSet: string,
    status: UnitStatus, allocationId: Option<string>)

  datatype Allocation = Allocation(
    loginUser: string, ipAddress: string,
    computeId: Option<string>, currentHost: Option<string>, status: AllocationStatus)

  datatype IpAddress = IpAddress(status: IpStatus, allocationId: Option<string>, currentHost: Option<string>)

  const FREE_ADDRESS := IpAddress(IpStatus.Free, None, None)

  /** The optional conditions of `lock_compute_unit`. */
  datatype Filter = Filter(region: Option<string>, zone: Option<string>, cpuCount: Option<int>)

  datatype InitRequest = InitRequest(hostname: string, region: string, zone: Option<string>, specs: seq<UnitSpec>)

  datatype Command =
    | AllocationCreate(allocationId: string, computeId: string)
    | AllocationDelete(allocationId: string, computeId: string)
    | AllocationScale(allocationId: string, filter: Filter)
    | ServerInit(request: InitRequest)
    | ServerDecomm(hostname: string)

  /** The database. The queue delivers each job once and promises no order. */
  datatype Database = Database(
    servers: map<string, Server>,
    units: map<string, ComputeUnit>,
    allocations: map<string, Allocation>,
    pool: map<string, IpAddress>,
    jobs: multiset<Command>)
  {
    // ---- Constraints of the schema ----

    /** Foreign keys: a reference is null or names an existing row. */
    predicate KnownServer(hostname: Option<string>) {
      hostname.Some? ==> hostname.value in servers
    }

    predicate KnownUnit(computeId: Option<string>) {
      computeId.Some? ==> computeId.value in units
    }

    predicate KnownAllocation(allocationId: Option<string>) {
      allocationId.Some? ==> allocationId.value in allocations
    }

    /** Every reference of every table is null or names an existing row. */
    predicate ReferencesKnown() {
      && (forall c :: c in units ==> units[c].hostname in servers && KnownAllocation(units[c].allocationId))
      && (forall a :: a in allocations ==>
               KnownUnit(allocations[a].computeId) && KnownServer(allocations[a].currentHost))
      && (forall ip :: ip in pool ==> KnownAllocation(pool[ip].allocationId) && KnownServer(pool[ip].currentHost))
    }

    /** Storing this allocation row keeps the foreign keys and the three partial unique indexes. */
    predicate AcceptsAllocation(id: string, row: Allocation) {
      && KnownUnit(row.computeId) && KnownServer(row.currentHost)
      && forall other :: other in allocations && other != id ==> Compatible(row, allocations[other])
    }

    static predicate Compatible(x: Allocation, y: Allocation) {
      && (x.status != Deallocated && y.status != Deallocated ==> x.loginUser != y.loginUser)
      && (x.computeId.Some? ==> x.computeId != y.computeId)
      && (x.status == AllocationStatus.Allocated && y.status == AllocationStatus.Allocated ==>
               x.ipAddress != y.ipAddress)
    }

    // ---- Rows after an update ----

    /** `update_allocation` never nulls a column. */
    function UpdatedAllocation(id: string, status: Option<AllocationStatus>, computeId: Option<string>,
                               currentHost: Option<string>): Allocation
      requires id in allocations
    {
      var row := allocations[id];
      row.(status := status.Or(row.status),
           computeId := computeId.Coalesce(row.computeId),
           currentHost := currentHost.Coalesce(row.currentHost))
    }

    /** `clear_allocation_placement` nulls the placement. */
    function ClearedAllocation(id: string, status: Option<AllocationStatus>): Allocation
      requires id in allocations
    {
      var row := allocations[id];
      row.(status := status.Or(row.status), computeId := None, currentHost := None)
    }

    /** `update_compute_unit`: the flag wins over the new owner. */
    function UpdatedUnit(id: string, status: Option<UnitStatus>, allocationId: Option<string>, clear: bool): ComputeUnit
      requires id in units
    {
      var row := units[id];
      row.(status := status.Or(row.status),
           allocationId := if clear then None else allocationId.Coalesce(row.allocationId))
    }

    /** `update_ip_pool_address` never nulls a column. */
    function UpdatedAddress(ip: string, status: Option<IpStatus>, allocationId: Option<string>,
                            currentHost: Option<string>): IpAddress
      requires ip in pool
    {
      var row := pool[ip];
      IpAddress(status.Or(row.status),
                allocationId.Coalesce(row.allocationId),
                currentHost.Coalesce(row.currentHost))
    }

    // ---- Whole-table statements ----

    /** `server_update_status`. */
    function WithServerStatus(hostname: string, status: ServerStatus): Database {
      if hostname !in servers then this else
      var row := servers[hostname];
      var health := if status == Ready then Healthy
                    else if status == Decommissioned || status == DecommissionFail then Unknown
                    else row.health;
      this.(servers := servers[hostname := row.(status := status, health := health)])
    }

    /** The units that remain, and what ON DELETE SET NULL does to the rows that named the others. */
    function WithoutUnits(hostname: string): Database {
      this.(units := map id | id in units && units[id].hostname != hostname :: units[id],
            allocations := map a | a in allocations :: DetachedFromUnits(allocations[a], hostname))
    }

    function DetachedFromUnits(row: Allocation, hostname: string): Allocation {
      if row.computeId.Some? && row.computeId.value in units && units[row.computeId.value].hostname == hostname
      then row.(computeId := None)
      else row
    }

    /** `delete_server`: units cascade, every other reference to the host becomes null. */
    function WithoutServer(hostname: string): Database {
      var rest := WithoutUnits(hostname);
      rest.(servers := servers - {hostname},
            allocations := map a | a in rest.allocations ::
              if rest.allocations[a].currentHost == Some(hostname)
              then rest.allocations[a].(currentHost := None) else rest.allocations[a],
            pool := map ip | ip in pool ::
              if pool[ip].currentHost == Some(hostname) then pool[ip].(currentHost := None) else pool[ip])
    }

    /** `insert_new_compute_unit` with ON CONFLICT DO NOTHING on the id and on (hostname, ordinal). */
    function WithNewUnit(row: ComputeUnit): Database {
      var id := ComputeId(row.hostname, row.ordinal);
      if id in units || exists c :: c in units && SameSlot(units[c], row) then this
      else this.(units := units[id := row])
    }

    static predicate SameSlot(x: ComputeUnit, y: ComputeUnit) {
      x.hostname == y.hostname && x.ordinal == y.ordinal
    }

    // ---- Candidates of the two locks ----

    /** The WHERE clause of `lock_compute_unit`. */
    predicate Eligible(filter: Filter, id: string) {
      && id in units && units[id].status == UnitStatus.Free
      && units[id].hostname in servers
      && var server := servers[units[id].hostname];
      && server.status == Ready && server.health == Healthy
      && (filter.region.Some? ==> server.region == filter.region.value)
      && (filter.zone.Some? ==> server.zone == filter.zone.value)
      && (filter.cpuCount.Some? ==> units[id].cpuCount == filter.cpuCount.value)
    }

    /** The generated column: every unit is stored under its own id. */
    predicate IdsGenerated() {
      forall id :: id in units ==> id == ComputeId(units[id].hostname, units[id].ordinal)
    }
  }

  // ---- What the ON DELETE rules promise ----

  /** A reference once the rows it might name were deleted: null exactly if its row is gone. */
  function Detached(reference: Option<string>, gone: set<string>): Option<string> {
    if reference.Some? && reference.value in gone then None else reference
  }

  function UnitsOf(d: Database, hostname: string): set<string> {
    set c | c in d.units && d.units[c].hostname == hostname
  }

  /** e is d with exactly these units gone and exactly the references to them null. */
  ghost predicate UnitsGone(d: Database, e: Database, gone: set<string>) {
    && e == d.(units := e.units, allocations := e.allocations)
    && e.units.Keys == d.units.Keys - gone && (forall c :: c in e.units ==> e.units[c] == d.units[c])
    && e.allocations.Keys == d.allocations.Keys
    && forall a :: a in e.allocations ==>
         e.allocations[a] == d.allocations[a].(computeId := Detached(d.allocations[a].computeId, gone))
  }

  /**
   e is d with exactly this host and its units gone, and exactly the references to them null. Owners,
   statuses and identities are untouched.
   */
  ghost predicate ServerGone(d: Database, e: Database, hostname: string) {
    && e.servers.Keys == d.servers.Keys - {hostname} && (forall h :: h in e.servers ==> e.servers[h] == d.servers[h])
    && e.jobs == d.jobs
    && e.units.Keys == d.units.Keys - UnitsOf(d, hostname) && (forall c :: c in e.units ==> e.units[c] == d.units[c])
    && e.allocations.Keys == d.allocations.Keys && e.pool.Keys == d.pool.Keys
    && (forall a :: a in e.allocations ==>
          e.allocations[a] == d.allocations[a].(computeId := Detached(d.allocations[a].computeId, UnitsOf(d, hostname)),
                                                currentHost := Detached(d.allocations[a].currentHost, {hostname})))
    && (forall ip :: ip in e.pool ==>
          e.pool[ip] == d.pool[ip].(currentHost := Detached(d.pool[ip].currentHost, {hostname})))
  }

  lemma WithoutUnitsIsGone(d: Database, hostname: string)
    ensures UnitsGone(d, d.WithoutUnits(hostname), UnitsOf(d, hostname))
  {
  }

  lemma WithoutServerIsGone(d: Database, hostname: string)
    ensures ServerGone(d, d.WithoutServer(hostname), hostname)
  {
    WithoutUnitsIsGone(d, hostname);
    DetachedAllocations(d, hostname);
    hide Database.WithoutUnits, UnitsOf;
  }

  lemma DetachedAllocations(d: Database, hostname: string)
    ensures var e := d.WithoutServer(hostname);
            && e.allocations.Keys == d.allocations.Keys
            && forall a :: a in e.allocations ==>
                 e.allocations[a] == d.allocations[a].(
                                       computeId := Detached(d.allocations[a].computeId, UnitsOf(d, hostname)),
                                       currentHost := Detached(d.allocations[a].currentHost, {hostname}))
  {
    WithoutUnitsIsGone(d, hostname);
    hide Database.WithoutUnits, UnitsOf;
  }

  /** These promises leave no choice. */
  lemma ServerGoneIsUnique(d: Database, e: Database, hostname: string)
    requires ServerGone(d, e, hostname)
    ensures e == d.WithoutServer(hostname)
  {
    var f := d.WithoutServer(hostname);
    WithoutServerIsGone(d, hostname);
    hide Database.WithoutServer, Detached, UnitsOf;
    assert e.servers == f.servers && e.units == f.units && e.allocations == f.allocations && e.pool == f.pool;
  }

  /** Deleting a host leaves no reference to a row that is gone. */
  lemma ServerGoneKeepsReferences(d: Database, e: Database, hostname: string)
    requires ServerGone(d, e, hostname) && d.ReferencesKnown()
    ensures e.ReferencesKnown()
  {
  }

  lemma UnitsGoneKeepsReferences(d: Database, e: Database, gone: set<string>)
    requires UnitsGone(d, e, gone) && d.ReferencesKnown()
    ensures e.ReferencesKnown()
  {
  }

  /** `ORDER BY c.hostname, c.ordinal`. */
  predicate UnitLeq(x: ComputeUnit, y: ComputeUnit) {
    if x.hostname == y.hostname then x.ordinal <= y.ordinal else StrLeq(x.hostname, y.hostname)
  }

  lemma UnitLeqIsTotalOrder()
    ensures TotalOrder(UnitLeq)
  {
    forall x, y ensures UnitLeq(x, y) || UnitLeq(y, x) {
      StrTotal(x.hostname, y.hostname);
    }
    forall x, y, z | UnitLeq(x, y) && UnitLeq(y, z) ensures UnitLeq(x, z) {
      StrTotal(x.hostname, y.hostname);
      if x.hostname != y.hostname && y.hostname != z.hostname {
        StrTransitive(x.hostname, y.hostname, z.hostname);
      }
    }
  }

  ghost predicate FirstEligible(d: Database, filter: Filter, id: string) {
    d.Eligible(filter, id) && forall other :: d.Eligible(filter, other) ==> UnitLeq(d.units[id], d.units[other])
  }

  /** The WHERE clause of `lock_ip_pool_address`. */
  predicate FreeIp(pool: map<string, IpAddress>, ip: string) {
    ip in pool && pool[ip].status == IpStatus.Free
  }

  ghost predicate FirstFreeIp(pool: map<string, IpAddress>, ip: string) {
    FreeIp(pool, ip) && forall other :: FreeIp(pool, other) ==> StrLeq(ip, other)
  }

  /** The row `lock_compute_unit` selects: none only if no row qualifies. */
  ghost function PickUnit(d: Database, filter: Filter): (r: Option<string>)
    ensures r.None? <==> forall id :: !d.Eligible(filter, id)
    ensures r.Some? ==> FirstEligible(d, filter, r.value)
  {
    if id :| d.Eligible(filter, id) then
      FirstEligibleExists(d, filter);
      var first :| FirstEligible(d, filter, first);
      Some(first)
    else None
  }

  /** The row `lock_ip_pool_address` selects. */
  ghost function PickIp(pool: map<string, IpAddress>): (r: Option<string>)
    ensures r.None? <==> forall ip :: !FreeIp(pool, ip)
    ensures r.Some? ==> FirstFreeIp(pool, r.value)
  {
    if ip :| FreeIp(pool, ip) then
      FirstFreeIpExists(pool);
      var first :| FirstFreeIp(pool, first);
      Some(first)
    else None
  }

  /** The database after `lock_compute_unit`: only the status changes. */
  ghost function LockUnit(d: Database, filter: Filter): Database {
    var pick := PickUnit(d, filter);
    if pick.None? then d
    else d.(units := d.units[pick.value := d.units[pick.value].(status := UnitStatus.Allocating)])
  }

  /** The pool after `lock_ip_pool_address`. */
  ghost function LockIp(pool: map<string, IpAddress>): map<string, IpAddress> {
    var pick := PickIp(pool);
    if pick.None? then pool else pool[pick.value := pool[pick.value].(status := IpStatus.Reserved)]
  }

  lemma FirstEligibleExists(d: Database, filter: Filter)
    requires exists id :: d.Eligible(filter, id)
    ensures exists id :: FirstEligible(d, filter, id)
  {
    var id :| d.Eligible(filter, id);
    var rows := set c | c in d.units && d.Eligible(filter, c) :: d.units[c];
    assert d.units[id] in rows;
    UnitLeqIsTotalOrder();
    var least := LeastExists(rows, UnitLeq);
    var first :| first in d.units && d.Eligible(filter, first) && d.units[first] == least;
    assert FirstEligible(d, filter, first);
  }

  lemma FirstFreeIpExists(pool: map<string, IpAddress>)
    requires exists ip :: FreeIp(pool, ip)
    ensures exists ip :: FirstFreeIp(pool, ip)
  {
    var ip :| FreeIp(pool, ip);
    var free := set i | i in pool && FreeIp(pool, i);
    assert ip in free;
    StrLeqIsTotalOrder();
    var least := LeastExists(free, StrLeq);
    assert FirstFreeIp(pool, least);
  }

  /** The order leaves no choice, so any way of finding the first row finds the same one. */
  lemma FirstEligibleIsUnique(d: Database, filter: Filter, id: string)
    requires d.IdsGenerated() && FirstEligible(d, filter, id)
    ensures PickUnit(d, filter) == Some(id)
  {
    var other := PickUnit(d, filter).value;
    StrTotal(d.units[id].hostname, d.units[other].hostname);
  }

  lemma FirstFreeIpIsUnique(pool: map<string, IpAddress>, ip: string)
    requires FirstFreeIp(pool, ip)
    ensures PickIp(pool) == Some(ip)
  {
    StrTotal(ip, PickIp(pool).value);
  }

  // ---- Statements that may raise ----

  /**
   The state of a handler that has issued some statements: a statement that would break a constraint
   raises, changes nothing, and no later statement of the handler is issued.
   */
  datatype Progress = Progress(db: Database, raised: bool) {
    function UpdateAllocation(id: string, status: Option<AllocationStatus>, computeId: Option<string>,
                              currentHost: Option<string>): Progress {
      if raised || id !in db.allocations then this else
      StoreAllocation(id, db.UpdatedAllocation(id, status, computeId, currentHost))
    }

    function ClearAllocationPlacement(id: string, status: Option<AllocationStatus>): Progress {
      if raised || id !in db.allocations then this else
      StoreAllocation(id, db.ClearedAllocation(id, status))
    }

    function InsertAllocation(id: string, row: Allocation): Progress {
      if raised then this else
      if id in db.allocations then Progress(db, true) else StoreAllocation(id, row)
    }

    function StoreAllocation(id: string, row: Allocation): Progress {
      if db.AcceptsAllocation(id, row)
      then Progress(db.(allocations := db.allocations[id := row]), false)
      else Progress(db, true)
    }

    function UpdateUnit(id: string, status: Option<UnitStatus>, allocationId: Option<string>, clear: bool): Progress {
      if raised || id !in db.units then this else
      var row := db.UpdatedUnit(id, status, allocationId, clear);
      if db.KnownAllocation(row.allocationId) then Progress(db.(units := db.units[id := row]), false)
      else Progress(db, true)
    }

    function UpdateAddress(ip: string, status: Option<IpStatus>, allocationId: Option<string>,
                           currentHost: Option<string>): Progress {
      if raised || ip !in db.pool then this else
      var row := db.UpdatedAddress(ip, status, allocationId, currentHost);
      if db.KnownAllocation(row.allocationId) && db.KnownServer(row.currentHost)
      then Progress(db.(pool := db.pool[ip := row]), false)
      else Progress(db, true)
    }

    function InsertUnit(row: ComputeUnit): Progress {
      if raised then this
      else if row.hostname !in db.servers then Progress(db, true)
      else Progress(db.WithNewUnit(row), false)
    }

    /** `release_ip_pool_address` nulls both references. */
    function ReleaseAddress(ip: string): Progress {
      if raised || ip !in db.pool then this
      else Progress(db.(pool := db.pool[ip := FREE_ADDRESS]), false)
    }
  }
}
