/** The queued jobs that run playbooks for allocations (kloigos/workers/remote/allocation.py). */
module Workers {
  import opened Options
  import opened Repository
  import opened Tables

  /** What `run_playbook` may do. */
  datatype PlaybookResult = Successful | Unsuccessful | Crashed

  // ---- Create ----

  /** The three statements after the ALLOCATION_CREATE playbook. */
  function CreateFinished(d: Database, id: string, unit: string, ok: bool): Progress {
    if unit !in d.units || id !in d.allocations then Progress(d, true) else
    Start(d)
      .UpdateUnit(unit, Some(if ok then UnitStatus.Allocated else UnitStatus.AllocationFail),
                  if ok then Some(id) else None, !ok)
      .UpdateAllocation(id, Some(if ok then AllocationStatus.Allocated else AllocationStatus.AllocationFail), None,
          None)
      .UpdateAddress(d.allocations[id].ipAddress, Some(if ok then IpStatus.Allocated else IpStatus.Reserved),
                     Some(id), Some(d.units[unit].hostname))
  }

  method RunComputeUnitAllocate(repo: Repo, id: string, unit: string, result: PlaybookResult) returns (raised: bool)
    modifies repo
    ensures Progress(repo.Db(), raised) == CreateFinished(old(repo.Db()), id, unit, result.Successful?)
  {
    if unit !in repo.units || id !in repo.allocations {
      return true;
    }
    var hostname, ip := repo.units[unit].hostname, repo.allocations[id].ipAddress;
    var ok := result.Successful?;
    var finalStatus := if ok then UnitStatus.Allocated else UnitStatus.AllocationFail;
    raised := repo.UpdateComputeUnit(unit, Some(finalStatus), if ok then Some(id) else None, !ok);
    if raised { return; }
    raised := repo.UpdateAllocation(id, Some(if ok then AllocationStatus.Allocated
        else AllocationStatus.AllocationFail));
    if raised { return; }
    raised := repo.UpdateIpPoolAddress(ip, Some(if ok then IpStatus.Allocated else IpStatus.Reserved), Some(id),
        Some(hostname));
  }

  // ---- Delete ----

  /** The three statements after the ALLOCATION_DELETE playbook. */
  function DeleteFinished(d: Database, id: string, unit: string, ok: bool): Progress {
    if unit !in d.units || id !in d.allocations then Progress(d, true) else
    var ip := d.allocations[id].ipAddress;
    if ok then
      Start(d)
        .UpdateUnit(unit, Some(UnitStatus.Free), None, true)
        .ClearAllocationPlacement(id, Some(Deallocated))
        .ReleaseAddress(ip)
    else
      Start(d)
        .UpdateUnit(unit, Some(UnitStatus.DeallocationFail), Some(id), false)
        .UpdateAllocation(id, Some(AllocationStatus.DeallocationFail), None, None)
        .UpdateAddress(ip, Some(IpStatus.Allocated), Some(id), Some(d.units[unit].hostname))
  }

  method RunComputeUnitDeallocate(repo: Repo, id: string, unit: string, result: PlaybookResult) returns (raised: bool)
    modifies repo
    ensures Progress(repo.Db(), raised) == DeleteFinished(old(repo.Db()), id, unit, result.Successful?)
  {
    if unit !in repo.units || id !in repo.allocations {
      return true;
    }
    var hostname, ip := repo.units[unit].hostname, repo.allocations[id].ipAddress;
    var ok := result.Successful?;
    raised := repo.UpdateComputeUnit(unit, Some(if ok then UnitStatus.Free else UnitStatus.DeallocationFail),
                                     if ok then None else Some(id), ok);
    if raised { return; }
    if ok {
      raised := repo.ClearAllocationPlacement(id, Some(Deallocated));
      if raised { return; }
      repo.ReleaseIpPoolAddress(ip);
    } else {
      raised := repo.UpdateAllocation(id, Some(AllocationStatus.DeallocationFail));
      if raised { return; }
      raised := repo.UpdateIpPoolAddress(ip, Some(IpStatus.Allocated), Some(id), Some(hostname));
    }
  }

  // ---- Scale, split around its playbook ----

  /** What the scale worker holds in its local variables while the playbook runs. */
  datatype ScaleJob = ScaleJob(ipAddress: string, source: string, sourceHost: string, target: string,
      targetHost: string)

  /** From delivery to the start of the playbook: a target is locked, or the scale fails at once. */
  ghost function ScaleBegun(d: Database, id: string, filter: Filter): (Database, Option<ScaleJob>) {
    if id !in d.allocations then (d, None) else
    var row := d.allocations[id];
    if row.computeId.None? || row.computeId.value !in d.units then (d, None) else
    var source := row.computeId.value;
    var pick := PickUnit(d, filter);
    if pick.None?
    then (Start(d).UpdateAllocation(id, Some(ScaleFail), None, None).db, None)
    else ScaleBegunOn(d, row.ipAddress, source, pick.value)
  }

  /** The same once this target is locked. */
  function ScaleBegunOn(d: Database, ipAddress: string, source: string, target: string): (Database, Option<ScaleJob>)
    requires source in d.units && target in d.units
  {
    (d.(units := d.units[target := d.units[target].(status := UnitStatus.Allocating)]),
     Some(ScaleJob(ipAddress, source, d.units[source].hostname, target, d.units[target].hostname)))
  }

  method BeginScale(repo: Repo, id: string, filter: Filter) returns (job: Option<ScaleJob>)
    requires repo.Db().IdsGenerated()
    modifies repo
    ensures (repo.Db(), job) == ScaleBegun(old(repo.Db()), id, filter)
  {
    if id !in repo.allocations { return None; }
    var row := repo.allocations[id];
    if row.computeId.None? || row.computeId.value !in repo.units { return None; }
    var source := row.computeId.value;
    var sourceHost := repo.units[source].hostname;
    var target := repo.LockComputeUnit(filter);
    if target.None? {
      var _ := repo.UpdateAllocation(id, Some(ScaleFail));
      return None;
    }
    return Some(ScaleJob(row.ipAddress, source, sourceHost, target.value, repo.units[target.value].hostname));
  }

  /** The four statements after the ALLOCATION_SCALE playbook. */
  function ScaleFinished(d: Database, id: string, job: ScaleJob, ok: bool): Progress {
    if ok then
      Start(d)
        .UpdateUnit(job.source, Some(UnitStatus.Free), None, true)
        .UpdateUnit(job.target, Some(UnitStatus.Allocated), Some(id), false)
        .UpdateAllocation(id, Some(AllocationStatus.Allocated), Some(job.target), Some(job.targetHost))
        .UpdateAddress(job.ipAddress, Some(IpStatus.Allocated), Some(id), Some(job.targetHost))
    else
      Start(d)
        .UpdateUnit(job.target, Some(UnitStatus.Free), None, true)
        .UpdateAllocation(id, Some(ScaleFail), Some(job.source), Some(job.sourceHost))
        .UpdateAddress(job.ipAddress, Some(IpStatus.Allocated), Some(id), Some(job.sourceHost))
  }

  method FinishScale(repo: Repo, id: string, job: ScaleJob, result: PlaybookResult) returns (raised: bool)
    modifies repo
    ensures Progress(repo.Db(), raised) == ScaleFinished(old(repo.Db()), id, job, result.Successful?)
  {
    if result.Successful? {
      raised := repo.UpdateComputeUnit(job.source, Some(UnitStatus.Free), None, true);
      if raised { return; }
      raised := repo.UpdateComputeUnit(job.target, Some(UnitStatus.Allocated), Some(id));
      if raised { return; }
      raised := repo.UpdateAllocation(id, Some(AllocationStatus.Allocated), Some(job.target), Some(job.targetHost));
      if raised { return; }
      raised := repo.UpdateIpPoolAddress(job.ipAddress, Some(IpStatus.Allocated), Some(id), Some(job.targetHost));
    } else {
      raised := repo.UpdateComputeUnit(job.target, Some(UnitStatus.Free), None, true);
      if raised { return; }
      raised := repo.UpdateAllocation(id, Some(ScaleFail), Some(job.source), Some(job.sourceHost));
      if raised { return; }
      raised := repo.UpdateIpPoolAddress(job.ipAddress, Some(IpStatus.Allocated), Some(id), Some(job.sourceHost));
    }
  }
}
