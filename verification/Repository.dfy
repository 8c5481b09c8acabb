/**
 `PostgresRepo`: the tables as fields that each statement updates in place
 (kloigos/repos/postgres.py).
 */
module Repository {
  import opened Options
  import opened StringOrder
  import opened Tables

  /** What happens to one call: it may raise before its effect, or after the effect was stored. */
  datatype CallFault = Works | FailsBefore | FailsAfter

  /** The outcome of a call that would lead from `before` to `after` if nothing failed. */
  function Faulty(before: Database, after: Progress, fault: CallFault): Progress {
    match fault
    case Works => after
    case FailsBefore => Progress(before, true)
    case FailsAfter => Progress(after.db, true)
  }

  function Start(d: Database): Progress {
    Progress(d, false)
  }

  class Repo {
    var servers: map<string, Server>
    var units: map<string, ComputeUnit>
    var allocations: map<string, Allocation>
    var pool: map<string, IpAddress>
    var jobs: multiset<Command>

    function Db(): Database
      reads this
    {
      Database(servers, units, allocations, pool, jobs)
    }

    constructor ()
      ensures Db() == Database(map[], map[], map[], map[], multiset{})
    {
      servers, units, allocations, pool, jobs := map[], map[], map[], map[], multiset{};
    }

    // ---- Locks ----

    method LockComputeUnit(filter: Filter) returns (id: Option<string>)
      requires Db().IdsGenerated()
      modifies `units
      ensures id == PickUnit(old(Db()), filter)
      ensures Db() == LockUnit(old(Db()), filter)
    {
      var d := Db();
      var candidates := set c | c in units && d.Eligible(filter, c);
      if candidates == {} {
        assert forall c :: d.Eligible(filter, c) ==> c in candidates;
        return None;
      }
      assert PickUnit(d, filter).Some? by {
        var c :| c in candidates;
        assert d.Eligible(filter, c);
      }
      assert PickUnit(d, filter).value in candidates;
      var first :| first in candidates && forall c :: c in candidates ==> UnitLeq(units[first], units[c]);
      FirstEligibleIsUnique(d, filter, first);
      units := units[first := units[first].(status := UnitStatus.Allocating)];
      return Some(first);
    }

    method LockIpPoolAddress(fault: CallFault := Works) returns (raised: bool, ip: Option<string>)
      modifies `pool
      ensures raised <==> fault != Works
      ensures pool == if fault == FailsBefore then old(pool) else LockIp(old(pool))
      ensures !raised ==> ip == PickIp(old(pool))
    {
      if fault == FailsBefore {
        return true, None;
      }
      var candidates := set i | i in pool && FreeIp(pool, i);
      ip := None;
      if candidates == {} {
        assert forall i :: FreeIp(pool, i) ==> i in candidates;
      } else {
        assert PickIp(pool).Some? by {
          var i :| i in candidates;
          assert FreeIp(pool, i);
        }
        assert PickIp(pool).value in candidates;
        var first :| first in candidates && forall i :: i in candidates ==> StrLeq(first, i);
        FirstFreeIpIsUnique(pool, first);
        pool := pool[first := pool[first].(status := IpStatus.Reserved)];
        ip := Some(first);
      }
      raised := fault == FailsAfter;
    }

    // ---- Allocations ----

    method FindAllocation(id: string, fault: CallFault := Works) returns (raised: bool, row: Option<Allocation>)
      ensures raised <==> fault != Works
      ensures !raised ==> row == if id in allocations then Some(allocations[id]) else None
    {
      raised := fault != Works;
      row := if id in allocations then Some(allocations[id]) else None;
    }

    /** `get_allocations(login_user=…)` followed by the test for an active match. */
    method LoginInUse(loginUser: string, fault: CallFault := Works) returns (raised: bool, inUse: bool)
      ensures raised <==> fault != Works
      ensures !raised ==> (inUse <==> exists a :: a in allocations && allocations[a].loginUser == loginUser
                                                  && allocations[a].status != Deallocated)
    {
      raised := fault != Works;
      inUse := exists a :: a in allocations && allocations[a].loginUser == loginUser
                           && allocations[a].status != Deallocated;
    }

    method InsertAllocation(id: string, row: Allocation, fault: CallFault := Works) returns (raised: bool)
      modifies `allocations
      ensures Progress(Db(), raised) == Faulty(old(Db()), Start(old(Db())).InsertAllocation(id, row), fault)
    {
      if fault == FailsBefore || id in allocations || !Db().AcceptsAllocation(id, row) {
        return true;
      }
      allocations := allocations[id := row];
      raised := fault == FailsAfter;
    }

    method UpdateAllocation(id: string, status: Option<AllocationStatus>, computeId: Option<string> := None,
                            currentHost: Option<string> := None) returns (raised: bool)
      modifies `allocations
      ensures Progress(Db(), raised) == Start(old(Db())).UpdateAllocation(id, status, computeId, currentHost)
    {
      if id !in allocations {
        return false;
      }
      var row := Db().UpdatedAllocation(id, status, computeId, currentHost);
      if !Db().AcceptsAllocation(id, row) {
        return true;
      }
      allocations := allocations[id := row];
      return false;
    }

    method ClearAllocationPlacement(id: string, status: Option<AllocationStatus>) returns (raised: bool)
      modifies `allocations
      ensures Progress(Db(), raised) == Start(old(Db())).ClearAllocationPlacement(id, status)
    {
      if id !in allocations {
        return false;
      }
      var row := Db().ClearedAllocation(id, status);
      if !Db().AcceptsAllocation(id, row) {
        return true;
      }
      allocations := allocations[id := row];
      return false;
    }

    // ---- IP pool ----

    method InsertIpPoolAddress(ip: string) returns (raised: bool)
      modifies `pool
      ensures raised <==> ip in old(pool)
      ensures pool == if raised then old(pool) else old(pool)[ip := FREE_ADDRESS]
    {
      if ip in pool {
        return true;
      }
      pool := pool[ip := FREE_ADDRESS];
      return false;
    }

    method DeleteIpPoolAddress(ip: string) returns (deleted: bool)
      modifies `pool
      ensures deleted <==> ip in old(pool)
      ensures pool == old(pool) - {ip}
    {
      deleted := ip in pool;
      pool := pool - {ip};
    }

    method UpdateIpPoolAddress(ip: string, status: Option<IpStatus>, allocationId: Option<string> := None,
                               currentHost: Option<string> := None, fault: CallFault := Works)
      returns (raised: bool)
      modifies `pool
      ensures Progress(Db(), raised)
           == Faulty(old(Db()), Start(old(Db())).UpdateAddress(ip, status, allocationId, currentHost), fault)
    {
      if fault == FailsBefore {
        return true;
      }
      raised := fault == FailsAfter;
      if ip in pool {
        var row := Db().UpdatedAddress(ip, status, allocationId, currentHost);
        if Db().KnownAllocation(row.allocationId) && Db().KnownServer(row.currentHost) {
          pool := pool[ip := row];
        } else {
          raised := true;
        }
      }
    }

    method ReleaseIpPoolAddress(ip: string)
      modifies `pool
      ensures Start(Db()) == Start(old(Db())).ReleaseAddress(ip)
    {
      if ip in pool {
        pool := pool[ip := FREE_ADDRESS];
      }
    }

    // ---- Compute units ----

    method InsertNewComputeUnit(row: ComputeUnit) returns (raised: bool)
      modifies `units
      ensures Progress(Db(), raised) == Start(old(Db())).InsertUnit(row)
    {
      if row.hostname !in servers {
        return true;
      }
      units := Db().WithNewUnit(row).units;
      return false;
    }

    method UpdateComputeUnit(id: string, status: Option<UnitStatus>, allocationId: Option<string> := None,
                             clear: bool := false, fault: CallFault := Works) returns (raised: bool)
      modifies `units
      ensures Progress(Db(), raised)
           == Faulty(old(Db()), Start(old(Db())).UpdateUnit(id, status, allocationId, clear), fault)
    {
      if fault == FailsBefore {
        return true;
      }
      raised := fault == FailsAfter;
      if id in units {
        var row := Db().UpdatedUnit(id, status, allocationId, clear);
        if Db().KnownAllocation(row.allocationId) {
          units := units[id := row];
        } else {
          raised := true;
        }
      }
    }

    method DeleteComputeUnits(hostname: string)
      modifies `units, `allocations
      ensures Db() == old(Db()).WithoutUnits(hostname)
      ensures UnitsGone(old(Db()), Db(), UnitsOf(old(Db()), hostname))
      ensures old(Db()).ReferencesKnown() ==> Db().ReferencesKnown()
    {
      hide Database.ReferencesKnown;
      WithoutUnitsIsGone(Db(), hostname);
      if Db().ReferencesKnown() {
        UnitsGoneKeepsReferences(Db(), Db().WithoutUnits(hostname), UnitsOf(Db(), hostname));
      }
      var after := Db().WithoutUnits(hostname);
      units, allocations := after.units, after.allocations;
    }

    // ---- Servers ----

    /** `server_init_new`: an upsert, which raises without a zone because that column is NOT NULL. */
    method ServerInitNew(request: InitRequest) returns (raised: bool)
      modifies `servers
      ensures raised <==> request.zone.None?
      ensures servers == if raised then old(servers)
                         else old(servers)[request.hostname := Server(Initializing, Unknown, request.region,
                             request.zone.value)]
    {
      if request.zone.None? {
        return true;
      }
      servers := servers[request.hostname := Server(Initializing, Unknown, request.region, request.zone.value)];
      return false;
    }

    method ServerUpdateStatus(hostname: string, status: ServerStatus)
      modifies `servers
      ensures Db() == old(Db()).WithServerStatus(hostname, status)
    {
      servers := Db().WithServerStatus(hostname, status).servers;
    }

    method UpdateServerHealth(hostname: string, health: HealthStatus)
      modifies `servers
      ensures servers == if hostname in old(servers)
                         then old(servers)[hostname := old(servers)[hostname].(health := health)] else old(servers)
    {
      if hostname in servers {
        servers := servers[hostname := servers[hostname].(health := health)];
      }
    }

    method DeleteServer(hostname: string)
      modifies this
      ensures ServerGone(old(Db()), Db(), hostname)
      ensures old(Db()).ReferencesKnown() ==> Db().ReferencesKnown()
    {
      hide Database.ReferencesKnown, ServerGone, Database.WithoutServer;
      WithoutServerIsGone(Db(), hostname);
      if Db().ReferencesKnown() {
        ServerGoneKeepsReferences(Db(), Db().WithoutServer(hostname), hostname);
      }
      var after := Db().WithoutServer(hostname);
      servers, units, allocations, pool, jobs := after.servers, after.units, after.allocations, after.pool, after.jobs;
    }

    // ---- Queue and audit ----

    method EnqueueCommand(job: Command, fault: CallFault := Works) returns (raised: bool)
      modifies `jobs
      ensures raised <==> fault != Works
      ensures jobs == if fault == FailsBefore then old(jobs) else old(jobs) + multiset{job}
    {
      if fault != FailsBefore {
        jobs := jobs + multiset{job};
      }
      raised := fault != Works;
    }

    /** The queue hands a job to its worker, once. */
    method TakeJob(job: Command)
      requires job in jobs
      modifies `jobs
      ensures jobs == old(jobs) - multiset{job}
    {
      jobs := jobs - multiset{job};
    }

    /** The audit log is no part of the state; writing to it may fail. */
    method LogEvent(fault: CallFault := Works) returns (raised: bool)
      ensures raised <==> fault != Works
    {
      raised := fault != Works;
    }
  }
}
