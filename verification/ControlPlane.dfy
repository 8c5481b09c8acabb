/** The whole control plane at work: the services and the job workers over one repository. */
module ControlPlane {
  import opened Administration
  import opened Allocations
  import opened Protocol
  import opened ProtocolRuns
  import opened Repository
  import opened ServerSpecs
  import opened Tables
  import opened Workers

  /** The API and its workers; a running scale keeps its local variables in `inFlight`. */
  class Plane {
    const repo: Repo
    const allocations: AllocationService
    const servers: ServersAdminService
    const ipPool: IpPoolAdminService
    var inFlight: map<string, ScaleJob>

    ghost predicate Wired()
      reads {}
    {
      allocations.repo == repo && servers.repo == repo && ipPool.repo == repo
    }

    function Now(): State
      reads this, repo
    {
      State(repo.Db(), inFlight)
    }

    constructor ()
      ensures Wired() && fresh(repo) && Now() == InitialState() && Inv(Now())
    {
      var tables := new Repo();
      repo, inFlight := tables, map[];
      allocations := new AllocationService(tables);
      servers := new ServersAdminService(tables);
      ipPool := new IpPoolAdminService(tables);
      new;
      InitialStateIsValid();
    }

    /** An API request, through the service that handles it. */
    method Answer(e: Event)
      requires Wired() && repo.Db().IdsGenerated() && Allowed(Now(), e)
      requires e.Allocate? || e.Deallocate? || e.Scale? || e.InitServer? || e.Decommission? || e.DeleteServer?
               || e.InsertAddresses? || e.DeleteAddress? || e.Probe?
      modifies repo
      ensures Now() == Step(old(Now()), e)
    {
      hide AllocateOutcome, DeallocateOutcome, ScaleOutcome, DecommissionOutcome, DeleteServerOutcome,
           InsertAddressesOutcome, DeleteAddressOutcome, Database.IdsGenerated, ValidUnits, InitGuard,
           DecommissionGuard, NotScaling;
      match e
      case Allocate(request, plan) => var _ := allocations.Allocate(request, plan);
      case Deallocate(id) => var _ := allocations.Deallocate(id);
      case Scale(id, scale, fault) => var _ := allocations.Scale(id, scale, fault);
      case InitServer(init) => var _ := servers.InitServer(init);
      case Decommission(hostname) => var _ := servers.DecommissionServer(hostname);
      case DeleteServer(hostname) => var _ := servers.DeleteServer(hostname);
      case InsertAddresses(addresses) => var _ := ipPool.InsertIpPoolAddresses(addresses);
      case DeleteAddress(ip) => var _ := ipPool.DeleteIpPoolAddress(ip);
      case Probe(hostname, health) => repo.UpdateServerHealth(hostname, health);
    }

    /** A queued job of an allocation, taken from the queue and run by its worker. */
    method Work(e: Event)
      requires Allowed(Now(), e)
      requires e.RunCreate? || e.RunDelete?
      modifies repo
      ensures Now() == Step(old(Now()), e)
    {
      hide CreateFinished, DeleteFinished;
      match e
      case RunCreate(id, unit, result) =>
        repo.TakeJob(AllocationCreate(id, unit));
        var _ := RunComputeUnitAllocate(repo, id, unit, result);
      case RunDelete(id, unit, result) =>
        repo.TakeJob(AllocationDelete(id, unit));
        var _ := RunComputeUnitDeallocate(repo, id, unit, result);
    }

    /** The same for a job of a server. */
    method WorkOnServer(e: Event)
      requires Allowed(Now(), e)
      requires e.RunInit? || e.RunDecomm?
      modifies repo
      ensures Now() == Step(old(Now()), e)
    {
      hide InitFinished, DecommFinished, ValidUnits;
      match e
      case RunInit(init, result) =>
        repo.TakeJob(ServerInit(init));
        var _ := RunServerInit(repo, init, result);
      case RunDecomm(hostname, result) =>
        repo.TakeJob(ServerDecomm(hostname));
        var _ := RunServerDecommission(repo, hostname, result);
    }

    /** A scale job up to its playbook. */
    method WorkToPlaybook(id: string, filter: Filter)
      requires repo.Db().IdsGenerated() && AllocationScale(id, filter) in repo.jobs
      modifies this, repo
      ensures Now() == Step(old(Now()), Event.BeginScale(id, filter))
    {
      hide ScaleBegun;
      repo.TakeJob(AllocationScale(id, filter));
      var job := Workers.BeginScale(repo, id, filter);
      if job.Some? {
        inFlight := inFlight[id := job.value];
      }
    }

    /** The same job after its playbook. */
    method WorkFromPlaybook(id: string, result: PlaybookResult)
      requires id in inFlight
      modifies this, repo
      ensures Now() == Step(old(Now()), Event.FinishScale(id, result))
    {
      hide ScaleFinished;
      var _ := Workers.FinishScale(repo, id, inFlight[id], result);
      inFlight := inFlight - {id};
    }

    method Perform(e: Event)
      requires Wired() && Inv(Now()) && Allowed(Now(), e)
      modifies this, repo
      ensures Now() == Step(old(Now()), e)
    {
      hide Inv, Step;
      match e
      case BeginScale(id, filter) =>
        IdsAreGenerated(Now());
        WorkToPlaybook(id, filter);
      case FinishScale(id, result) => WorkFromPlaybook(id, result);
      case RunCreate(_, _, _) => Work(e);
      case RunDelete(_, _, _) => Work(e);
      case RunInit(_, _) => WorkOnServer(e);
      case RunDecomm(_, _) => WorkOnServer(e);
      case _ =>
        IdsAreGenerated(Now());
        Answer(e);
    }

    /** Requests and jobs in any allowed order: the tables are always those of the run, and always valid. */
    method Serve(events: seq<Event>)
      requires Wired() && Inv(Now()) && AllowedRun(Now(), events)
      modifies this, repo
      ensures Now() == Run(old(Now()), events) && Inv(Now())
    {
      hide Inv, Step, Allowed;
      for k := 0 to |events|
        invariant Inv(Now()) && AllowedRun(Now(), events[k..])
        invariant Run(Now(), events[k..]) == Run(old(Now()), events)
      {
        assert events[k..][0] == events[k] && events[k..][1..] == events[k + 1..];
        StepKeepsInv(Now(), events[k]);
        Perform(events[k]);
      }
      assert events[|events|..] == [];
    }
  }

  lemma IdsAreGenerated(s: State)
    requires Inv(s)
    ensures s.db.IdsGenerated()
  {
    forall c | c in s.db.units ensures c == ComputeIds.ComputeId(s.db.units[c].hostname, s.db.units[c].ordinal) {
      assert UnitOk(s, c);
    }
  }
}
