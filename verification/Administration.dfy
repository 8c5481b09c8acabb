/**
 Servers and the IP pool: the admin services (kloigos/services/admin/) and the server jobs
 (kloigos/workers/remote/server.py).
 */
module Administration {
  import opened Collections
  import opened Options
  import opened Repository
  import opened ServerSpecs
  import opened Tables
  import opened Workers

  datatype AdminReply = Queued | Done | NotFound | StateError | OperationError | Absent

  // ---- Server API ----

  /** A request without a zone is valid for the API, but raises at the first statement. */
  function InitServerOutcome(d: Database, request: InitRequest): Progress {
    if request.zone.None? then Progress(d, true) else
    Start(d.(servers := d.servers[request.hostname := Server(Initializing, Unknown, request.region,
        request.zone.value)],
             jobs := d.jobs + multiset{ServerInit(request)}))
  }

  predicate ActiveOn(d: Database, hostname: string) {
    exists a :: a in d.allocations && d.allocations[a].currentHost == Some(hostname)
                && d.allocations[a].status != Deallocated
  }

  function DecommissionOutcome(d: Database, hostname: string): (Database, AdminReply) {
    if hostname !in d.servers then (d, NotFound)
    else if ActiveOn(d, hostname) then (d, StateError)
    else (d.WithServerStatus(hostname, Decommissioning).(jobs := d.jobs + multiset{ServerDecomm(hostname)}), Queued)
  }

  predicate Deletable(status: ServerStatus) {
    status == Decommissioned || status == InitFail || status == DecommissionFail
  }

  function DeleteServerOutcome(d: Database, hostname: string): (Database, AdminReply) {
    if hostname !in d.servers then (d, NotFound)
    else if !Deletable(d.servers[hostname].status) then (d, StateError)
    else (d.WithoutServer(hostname), Done)
  }

  class ServersAdminService {
    const repo: Repo

    constructor (repo: Repo)
      ensures this.repo == repo
    {
      this.repo := repo;
    }

    method InitServer(request: InitRequest) returns (raised: bool)
      modifies repo
      ensures Progress(repo.Db(), raised) == InitServerOutcome(old(repo.Db()), request)
      ensures !raised ==>
                && request.hostname in repo.servers
                && repo.servers[request.hostname].status == Initializing
                && repo.servers[request.hostname].region == request.region
                && Some(repo.servers[request.hostname].zone) == request.zone
    {
      raised := repo.LogEvent();
      raised := repo.ServerInitNew(request);
      if raised { return; }
      raised := repo.EnqueueCommand(ServerInit(request));
    }

    method DecommissionServer(hostname: string) returns (reply: AdminReply)
      modifies repo
      ensures (repo.Db(), reply) == DecommissionOutcome(old(repo.Db()), hostname)
    {
      if hostname !in repo.servers { return NotFound; }
      if ActiveOn(repo.Db(), hostname) { return StateError; }
      var raised := repo.LogEvent();
      repo.ServerUpdateStatus(hostname, Decommissioning);
      raised := repo.EnqueueCommand(ServerDecomm(hostname));
      return Queued;
    }

    method DeleteServer(hostname: string) returns (reply: AdminReply)
      modifies repo
      ensures (repo.Db(), reply) == DeleteServerOutcome(old(repo.Db()), hostname)
    {
      if hostname !in repo.servers { return NotFound; }
      if !Deletable(repo.servers[hostname].status) { return StateError; }
      var raised := repo.LogEvent();
      ghost var before := repo.Db();
      repo.DeleteServer(hostname);
      ServerGoneIsUnique(before, repo.Db(), hostname);
      return Done;
    }
  }

  // ---- Server jobs ----

  /** `as_compute_unit`: a new unit is free and unowned. */
  function UnitRow(hostname: string, unit: InitUnit): ComputeUnit {
    ComputeUnit(hostname, unit.ordinal, unit.cpuRange, unit.cpuCount, unit.cpuSet, UnitStatus.Free, None)
  }

  function InsertedUnits(d: Database, hostname: string, units: seq<InitUnit>): Progress {
    if units == [] then Start(d)
    else InsertedUnits(d, hostname, units[..|units| - 1]).InsertUnit(UnitRow(hostname, units[|units| - 1]))
  }

  /** A crash of the SERVER_INIT playbook is not caught: the job ends with nothing stored. */
  function InitFinished(d: Database, request: InitRequest, result: PlaybookResult): Progress
    requires ValidUnits(request.specs)
  {
    match result
    case Crashed => Progress(d, true)
    case Unsuccessful => Start(d.WithServerStatus(request.hostname, InitFail))
    case Successful =>
      var p := InsertedUnits(d, request.hostname, InitUnits(request.specs));
      if p.raised then p else Start(p.db.WithServerStatus(request.hostname, Ready))
  }

  method RunServerInit(repo: Repo, request: InitRequest, result: PlaybookResult) returns (raised: bool)
    requires ValidUnits(request.specs)
    modifies repo
    ensures Progress(repo.Db(), raised) == InitFinished(old(repo.Db()), request, result)
    ensures !raised && request.hostname in old(repo.servers) ==>
              && request.hostname in repo.servers
              && (result.Successful? ==> repo.servers[request.hostname].status == Ready)
              && (result.Unsuccessful? ==>
                    repo.servers[request.hostname].status == InitFail && repo.units == old(repo.units))
    ensures result.Crashed? ==> raised && repo.Db() == old(repo.Db())
  {
    hide InitUnits, ValidUnits;
    var units := InitComputeUnits(request.specs);
    if result.Crashed? { return true; }
    if result.Unsuccessful? {
      repo.ServerUpdateStatus(request.hostname, InitFail);
      return false;
    }
    raised := false;
    for k := 0 to |units|
      invariant !raised && Start(repo.Db()) == InsertedUnits(old(repo.Db()), request.hostname, units[..k])
    {
      assert units[..k + 1][..k] == units[..k];
      raised := repo.InsertNewComputeUnit(UnitRow(request.hostname, units[k]));
      if raised {
        InsertStopsAtRaise(old(repo.Db()), request.hostname, units, k + 1);
        return;
      }
    }
    assert units[..|units|] == units;
    repo.ServerUpdateStatus(request.hostname, Ready);
  }

  lemma {:induction false} InsertStopsAtRaise(d: Database, hostname: string, units: seq<InitUnit>, k: nat)
    requires k <= |units| && InsertedUnits(d, hostname, units[..k]).raised
    ensures InsertedUnits(d, hostname, units) == InsertedUnits(d, hostname, units[..k])
    decreases |units| - k
  {
    if k < |units| {
      assert units[..k + 1][..k] == units[..k];
      InsertStopsAtRaise(d, hostname, units, k + 1);
    } else {
      assert units[..k] == units;
    }
  }

  function DecommFinished(d: Database, hostname: string, result: PlaybookResult): Progress {
    if hostname !in d.servers || result.Crashed? then Progress(d, true)
    else if result.Successful? then Start(d.WithServerStatus(hostname, Decommissioned).WithoutUnits(hostname))
    else Start(d.WithServerStatus(hostname, DecommissionFail))
  }

  method RunServerDecommission(repo: Repo, hostname: string, result: PlaybookResult) returns (raised: bool)
    modifies repo
    ensures Progress(repo.Db(), raised) == DecommFinished(old(repo.Db()), hostname, result)
    ensures raised <==> hostname !in old(repo.servers) || result.Crashed?
    ensures raised ==> repo.Db() == old(repo.Db())
    ensures !raised ==>
              && hostname in repo.servers
              && (result.Successful? ==>
                    && repo.servers[hostname].status == Decommissioned
                    && forall c :: c in repo.units ==> repo.units[c].hostname != hostname)
              && (result.Unsuccessful? ==>
                    repo.servers[hostname].status == DecommissionFail && repo.units == old(repo.units))
  {
    if hostname !in repo.servers || result.Crashed? { return true; }
    repo.ServerUpdateStatus(hostname, if result.Successful? then Decommissioned else DecommissionFail);
    if result.Successful? {
      repo.DeleteComputeUnits(hostname);
    }
    return false;
  }

  // ---- IP pool ----

  /** The pool with every listed address free and unassigned. */
  function WithAddresses(pool: map<string, IpAddress>, addresses: set<string>): map<string, IpAddress> {
    pool + map ip | ip in addresses :: FREE_ADDRESS
  }

  /** A request with a repeated or an existing address changes nothing; any other adds all it names. */
  function InsertAddressesOutcome(d: Database, addresses: seq<string>): (Database, AdminReply) {
    if NoRepeats(addresses) && ToSet(addresses) !! d.pool.Keys
    then (d.(pool := WithAddresses(d.pool, ToSet(addresses))), Done)
    else (d, OperationError)
  }

  function DeleteAddressOutcome(d: Database, ip: string): (Database, AdminReply) {
    if ip !in d.pool then (d, Absent)
    else if d.pool[ip] != FREE_ADDRESS then (d, OperationError)
    else (d.(pool := d.pool - {ip}), Done)
  }

  lemma WithNoAddresses(pool: map<string, IpAddress>, addresses: seq<string>)
    ensures WithAddresses(pool, ToSet(addresses[..0])) == pool
  {
  }

  lemma OneMoreAddress(pool: map<string, IpAddress>, addresses: seq<string>, k: nat)
    requires k < |addresses| && NoRepeats(addresses) && ToSet(addresses) !! pool.Keys
    ensures var before := WithAddresses(pool, ToSet(addresses[..k]));
            && addresses[k] !in before
            && WithAddresses(pool, ToSet(addresses[..k + 1])) == before[addresses[k] := FREE_ADDRESS]
  {
    var ip, earlier := addresses[k], ToSet(addresses[..k]);
    assert ip in ToSet(addresses) && ip !in earlier;
    assert ToSet(addresses[..k + 1]) == earlier + {ip} by {
      assert addresses[..k + 1] == addresses[..k] + [ip];
    }
    hide NoRepeats, ToSet;
    FreeAddressAdded(pool, earlier, ip);
  }

  lemma FreeAddressAdded(pool: map<string, IpAddress>, addresses: set<string>, ip: string)
    ensures WithAddresses(pool, addresses + {ip}) == WithAddresses(pool, addresses)[ip := FREE_ADDRESS]
  {
  }

  class IpPoolAdminService {
    const repo: Repo

    constructor (repo: Repo)
      ensures this.repo == repo
    {
      this.repo := repo;
    }

    /** The validation loop: it grows the set of addresses requested so far. */
    method CheckAddresses(addresses: seq<string>) returns (ok: bool)
      ensures ok <==> NoRepeats(addresses) && ToSet(addresses) !! repo.pool.Keys
    {
      var requested: set<string> := {};
      for k := 0 to |addresses|
        invariant requested == ToSet(addresses[..k])
        invariant NoRepeats(addresses[..k]) && requested !! repo.pool.Keys
      {
        assert addresses[..k + 1] == addresses[..k] + [addresses[k]];
        if addresses[k] in requested {
          assert addresses[k] in addresses[..k];
          return false;
        }
        requested := requested + {addresses[k]};
        if addresses[k] in repo.pool {
          assert addresses[k] in ToSet(addresses);
          return false;
        }
      }
      assert addresses[..|addresses|] == addresses;
      return true;
    }

    method InsertIpPoolAddresses(addresses: seq<string>) returns (reply: AdminReply)
      modifies repo
      ensures (repo.Db(), reply) == InsertAddressesOutcome(old(repo.Db()), addresses)
    {
      var ok := CheckAddresses(addresses);
      if !ok {
        return OperationError;
      }
      hide NoRepeats, ToSet, WithAddresses;
      WithNoAddresses(old(repo.pool), addresses);
      for k := 0 to |addresses|
        invariant repo.Db() == old(repo.Db()).(pool := repo.pool)
        invariant repo.pool == WithAddresses(old(repo.pool), ToSet(addresses[..k]))
      {
        OneMoreAddress(old(repo.pool), addresses, k);
        var raised := repo.InsertIpPoolAddress(addresses[k]);
        assert !raised;
      }
      assert addresses[..|addresses|] == addresses;
      var raised := repo.LogEvent();
      return Done;
    }

    method DeleteIpPoolAddress(ip: string) returns (reply: AdminReply)
      modifies repo
      ensures (repo.Db(), reply) == DeleteAddressOutcome(old(repo.Db()), ip)
    {
      if ip !in repo.pool { return Absent; }
      var existing := repo.pool[ip];
      if existing.status != IpStatus.Free || existing.allocationId.Some? || existing.currentHost.Some? {
        return OperationError;
      }
      var deleted := repo.DeleteIpPoolAddress(ip);
      var raised := repo.LogEvent();
      return Done;
    }
  }
}
