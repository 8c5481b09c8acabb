/** The two halves of a scale: a target is locked before the playbook, one of the two units is freed after it. */
module ProtocolScale {
  import opened Options
  import opened Protocol
  import opened ProtocolJobs
  import opened ProtocolLocal
  import opened Tables
  import opened Workers

  // ---- Begin ----

  function NoTargetChange(d: Database, a: string): Change
    requires a in d.allocations && d.allocations[a].ipAddress in d.pool
  {
    Change(d.allocations[a].(status := ScaleFail), d.pool[d.allocations[a].ipAddress], map[])
  }

  function TargetChange(d: Database, a: string, target: string): Change
    requires a in d.allocations && d.allocations[a].ipAddress in d.pool && target in d.units
  {
    Change(d.allocations[a], d.pool[d.allocations[a].ipAddress],
           map[target := d.units[target].(status := UnitStatus.Allocating)])
  }

  /** The state after the first half: the scale failed, or its worker holds a job. */
  ghost function BegunState(s: State, a: string, filter: Filter): State {
    var (db, job) := ScaleBegun(Taken(s.db, AllocationScale(a, filter)), a, filter);
    State(db, if job.None? then s.inFlight else s.inFlight[a := job.value])
  }

  /** The allocation a queued scale is about is placed, and nothing but the job awaits it. */
  lemma QueuedScaleFacts(s: State, a: string, filter: Filter)
    requires Inv(s) && AllocationScale(a, filter) in s.db.jobs
    ensures a in s.db.allocations && AllocationOk(s, a) && s.db.allocations[a].status == Scaling
    ensures s.db.allocations[a].computeId.Some? && s.db.allocations[a].computeId.value in s.db.units
    ensures s.db.allocations[a].ipAddress in s.db.pool
    ensures a !in s.inFlight
  {
    hide UnitOk, AddressOk, ServersOk, Exclusive, LoginsDistinct, CpusDisjoint;
    JobIsOk(s, AllocationScale(a, filter));
    assert AllocationOk(s, a);
    assert AwaitsScale(s, a);
    assert a in s.inFlight ==> InFlightOk(s, a);
  }

  lemma BeginIsAtomic(s: State, a: string, filter: Filter)
    requires Inv(s) && AllocationScale(a, filter) in s.db.jobs
    requires a in s.db.allocations && s.db.allocations[a].ipAddress in s.db.pool
    ensures var d := Taken(s.db, AllocationScale(a, filter));
            var pick := PickUnit(d, filter);
            var row := d.allocations[a];
            && row.computeId.Some? && row.computeId.value in d.units && row.currentHost.Some?
            && BegunState(s, a, filter) ==
               if pick.None? then s.(db := Rewritten(d, a, NoTargetChange(d, a)))
               else State(Rewritten(d, a, TargetChange(d, a, pick.value)),
                          s.inFlight[a := ScaleJob(row.ipAddress, row.computeId.value, row.currentHost.value,
                                                   pick.value, d.units[pick.value].hostname)])
  {
    hide UnitOk, AddressOk, InFlightOk, AwaitsScale, ServersOk, Exclusive, LoginsDistinct, CpusDisjoint, JobsOk;
    QueuedScaleFacts(s, a, filter);
    var d := Taken(s.db, AllocationScale(a, filter));
    var unit := d.allocations[a].computeId.value;
    UnitHostKnown(s, unit);
    assert Own(s, a, unit);
    assert d.units + map[] == d.units;
    PlacedRowIsAccepted(s, d, a, NoTargetChange(d, a).row);
    assert d.pool[d.allocations[a].ipAddress := d.pool[d.allocations[a].ipAddress]] == d.pool;
    assert d.allocations[a := d.allocations[a]] == d.allocations;
    var pick := PickUnit(d, filter);
    if pick.Some? {
      var target := pick.value;
      assert d.units + TargetChange(d, a, target).units
          == d.units[target := d.units[target].(status := UnitStatus.Allocating)];
    }
  }

  lemma BeginRowsOk(s: State, t: State, a: string, filter: Filter)
    requires a in s.db.allocations && AllocationOk(s, a) && s.db.allocations[a].status == Scaling && a !in s.inFlight
    requires s.db.allocations[a].computeId.Some?
    requires var d := Taken(s.db, AllocationScale(a, filter)); t == s.(db := Rewritten(d, a, NoTargetChange(d, a)))
    requires SameOtherJobs(s, t, a)
    ensures AllocationOk(t, a)
    ensures var change := NoTargetChange(Taken(s.db, AllocationScale(a, filter)), a);
            OwnAddressOk(change, a) && Rewrites(s, t, a, change)
  {
    hide AwaitsScale;
  }

  lemma LockedRowsOk(s: State, t: State, a: string, filter: Filter, target: string, job: ScaleJob)
    requires a in s.db.allocations && AllocationOk(s, a) && s.db.allocations[a].status == Scaling && a !in s.inFlight
    requires s.db.allocations[a].computeId.Some? && s.db.allocations[a].currentHost.Some?
    requires target in s.db.units && s.db.units[target].status == UnitStatus.Free
             && s.db.units[target].allocationId.None?
    requires job == ScaleJob(s.db.allocations[a].ipAddress, s.db.allocations[a].computeId.value,
                             s.db.allocations[a].currentHost.value, target, s.db.units[target].hostname)
    requires var d := Taken(s.db, AllocationScale(a, filter));
             t == State(Rewritten(d, a, TargetChange(d, a, target)), s.inFlight[a := job])
    requires SameOtherJobs(s, t, a) && NoJobFor(t, a)
    ensures AllocationOk(t, a) && InFlightOk(t, a) && Targets(t, a, target)
    ensures var change := TargetChange(Taken(s.db, AllocationScale(a, filter)), a, target);
            OwnAddressOk(change, a) && Rewrites(s, t, a, change)
  {
    assert forall f :: Concerns(AllocationScale(a, f)) == Some(a);
  }

  lemma BeginScaleKeepsInv(s: State, a: string, filter: Filter)
    requires Inv(s) && AllocationScale(a, filter) in s.db.jobs
    ensures Inv(BegunState(s, a, filter)) && LocalTo(s, BegunState(s, a, filter), a)
  {
    hide LocalTo, AddressOk, ServersOk, LoginsDistinct, CpusDisjoint, Exclusive, Rewrites, JobsOk, OwnAddressOk,
         BegunState, InFlightOk, AllocationOk;
    QueuedScaleFacts(s, a, filter);
    BeginIsAtomic(s, a, filter);
    var d := Taken(s.db, AllocationScale(a, filter));
    var t := BegunState(s, a, filter);
    TakingLeavesNone(s, t, a, AllocationScale(a, filter));
    var pick := PickUnit(d, filter);
    if pick.None? {
      BeginRowsOk(s, t, a, filter);
      RewriteKeepsInv(s, t, a, NoTargetChange(d, a));
    } else {
      PickIsFreeAndReady(d, filter);
      TargetKeepsInv(s, a, filter, pick.value);
    }
  }

  lemma PickIsFreeAndReady(d: Database, filter: Filter)
    requires PickUnit(d, filter).Some?
    ensures var unit := PickUnit(d, filter).value;
            && unit in d.units && d.units[unit].status == UnitStatus.Free
            && d.units[unit].hostname in d.servers && d.servers[d.units[unit].hostname].status == Ready
  {
  }

  /** The state once the scale has locked this target. */
  function TargetState(s: State, a: string, filter: Filter, target: string): State
    requires a in s.db.allocations && s.db.allocations[a].ipAddress in s.db.pool && target in s.db.units
    requires s.db.allocations[a].computeId.Some? && s.db.allocations[a].currentHost.Some?
  {
    var row := s.db.allocations[a];
    State(Rewritten(Taken(s.db, AllocationScale(a, filter)), a, TargetChange(s.db, a, target)),
          s.inFlight[a := ScaleJob(row.ipAddress, row.computeId.value, row.currentHost.value,
                                   target, s.db.units[target].hostname)])
  }

  lemma TargetKeepsInv(s: State, a: string, filter: Filter, target: string)
    requires Inv(s) && AllocationScale(a, filter) in s.db.jobs
    requires target in s.db.units && s.db.units[target].status == UnitStatus.Free
    requires s.db.units[target].hostname in s.db.servers && s.db.servers[s.db.units[target].hostname].status == Ready
    requires a in s.db.allocations && s.db.allocations[a].ipAddress in s.db.pool
    requires s.db.allocations[a].computeId.Some? && s.db.allocations[a].currentHost.Some?
    ensures var t := TargetState(s, a, filter, target); Inv(t) && LocalTo(s, t, a)
  {
    hide LocalTo, AddressOk, ServersOk, LoginsDistinct, CpusDisjoint, Exclusive, Rewrites, JobsOk, OwnAddressOk,
         InFlightOk, AllocationOk;
    QueuedScaleFacts(s, a, filter);
    var t := TargetState(s, a, filter, target);
    TakingLeavesNone(s, t, a, AllocationScale(a, filter));
    assert UnitOk(s, target);
    LockedRowsOk(s, t, a, filter, target, t.inFlight[a]);
    RewriteKeepsInv(s, t, a, TargetChange(s.db, a, target));
  }

  // ---- Finish ----

  /** What the second half changes: one of source and target is freed, the other is the allocation's. */
  function FinishChange(d: Database, a: string, job: ScaleJob, ok: bool): Change
    requires a in d.allocations && job.source in d.units && job.target in d.units
  {
    if ok then
      Change(d.allocations[a].(status := AllocationStatus.Allocated, computeId := Some(job.target),
                               currentHost := Some(job.targetHost)),
             IpAddress(IpStatus.Allocated, Some(a), Some(job.targetHost)),
             map[job.source := Owned(d.units[job.source], UnitStatus.Free, None),
                 job.target := Owned(d.units[job.target], UnitStatus.Allocated, Some(a))])
    else
      Change(d.allocations[a].(status := ScaleFail),
             IpAddress(IpStatus.Allocated, Some(a), Some(job.sourceHost)),
             map[job.target := Owned(d.units[job.target], UnitStatus.Free, None)])
  }

  /** What the worker's local variables still say about the tables. */
  lemma InFlightFacts(s: State, a: string)
    requires Inv(s) && a in s.inFlight
    ensures a in s.db.allocations && AllocationOk(s, a) && InFlightOk(s, a)
    ensures var job := s.inFlight[a];
            && job.source in s.db.units && job.target in s.db.units && job.source != job.target
            && UnitOk(s, job.source) && UnitOk(s, job.target)
            && job.sourceHost in s.db.servers && job.targetHost in s.db.servers
            && s.db.units[job.source].hostname == job.sourceHost
            && s.db.units[job.source].status == UnitStatus.Allocated
            && s.db.units[job.source].allocationId == Some(a)
            && s.db.units[job.target].status == UnitStatus.Allocating
            && job.ipAddress in s.db.pool
  {
    hide AddressOk, ServersOk, Exclusive, LoginsDistinct, CpusDisjoint, JobsOk;
    assert InFlightOk(s, a);
    assert AllocationOk(s, a);
    assert UnitOk(s, s.inFlight[a].source);
  }

  /** The statements of the second half one after the other, where the schema accepts the row. */
  lemma FinishProgress(d: Database, a: string, job: ScaleJob, ok: bool)
    requires a in d.allocations && job.source in d.units && job.target in d.units && job.source != job.target
    requires d.allocations[a].computeId == Some(job.source) && d.allocations[a].currentHost == Some(job.sourceHost)
    requires d.allocations[a].ipAddress == job.ipAddress && job.ipAddress in d.pool
    requires job.sourceHost in d.servers && job.targetHost in d.servers
    requires var change := FinishChange(d, a, job, ok);
             d.(units := d.units + change.units).AcceptsAllocation(a, change.row)
    ensures ScaleFinished(d, a, job, ok) == Progress(Rewritten(d, a, FinishChange(d, a, job, ok)), false)
  {
    hide Database.AcceptsAllocation;
    var change := FinishChange(d, a, job, ok);
    if ok {
      assert d.units + change.units
          == d.units[job.source := change.units[job.source]][job.target := change.units[job.target]];
    } else {
      assert d.units + change.units == d.units[job.target := change.units[job.target]];
    }
  }

  lemma FinishIsAtomic(s: State, a: string, ok: bool)
    requires Inv(s) && a in s.inFlight
    requires a in s.db.allocations && s.inFlight[a].source in s.db.units && s.inFlight[a].target in s.db.units
    ensures ScaleFinished(s.db, a, s.inFlight[a], ok)
         == Progress(Rewritten(s.db, a, FinishChange(s.db, a, s.inFlight[a], ok)), false)
  {
    hide Inv, AllocationOk, UnitOk, ScaleFinished, Database.AcceptsAllocation, AwaitsScale;
    InFlightFacts(s, a);
    var d, job := s.db, s.inFlight[a];
    var change := FinishChange(d, a, job, ok);
    assert Own(s, a, job.source) && Own(s, a, job.target);
    PlacedRowIsAccepted(s, d.(units := d.units + change.units), a, change.row);
    FinishProgress(d, a, job, ok);
  }

  lemma FinishRowOk(s: State, t: State, a: string, ok: bool)
    requires a in s.inFlight && a in s.db.allocations && AllocationOk(s, a) && InFlightOk(s, a)
    requires s.inFlight[a].source in s.db.units && s.inFlight[a].source != s.inFlight[a].target
    requires t == State(Rewritten(s.db, a, FinishChange(s.db, a, s.inFlight[a], ok)), s.inFlight - {a})
    ensures AllocationOk(t, a) && OwnAddressOk(FinishChange(s.db, a, s.inFlight[a], ok), a)
  {
    hide AwaitsScale;
  }

  lemma FinishRowsOk(s: State, t: State, a: string, ok: bool)
    requires a in s.inFlight && a in s.db.allocations && AllocationOk(s, a) && InFlightOk(s, a)
    requires s.inFlight[a].source in s.db.units && s.inFlight[a].source != s.inFlight[a].target
    requires t == State(Rewritten(s.db, a, FinishChange(s.db, a, s.inFlight[a], ok)), s.inFlight - {a})
    ensures AllocationOk(t, a)
    ensures var change := FinishChange(s.db, a, s.inFlight[a], ok);
            OwnAddressOk(change, a) && Rewrites(s, t, a, change)
  {
    FinishRowOk(s, t, a, ok);
    PlacedInPool(s, a);
    hide AllocationOk, OwnAddressOk, AwaitsScale;
  }

  lemma NoJobInFlight(s: State, a: string)
    requires JobsOk(s) && a in s.inFlight && InFlightOk(s, a)
    ensures NoJobFor(s, a)
  {
    forall job | job in s.db.jobs ensures Concerns(job) != Some(a) {
      JobIsOk(s, job);
    }
  }

  lemma FinishScaleKeepsInv(s: State, a: string, ok: bool)
    requires Inv(s) && a in s.inFlight
    ensures var t := State(ScaleFinished(s.db, a, s.inFlight[a], ok).db, s.inFlight - {a}); Inv(t) && LocalTo(s, t, a)
  {
    hide LocalTo, AddressOk, ServersOk, LoginsDistinct, CpusDisjoint, Exclusive, Rewrites, JobsOk, OwnAddressOk,
         ScaleFinished, AllocationOk, InFlightOk;
    InFlightFacts(s, a);
    FinishIsAtomic(s, a, ok);
    var change := FinishChange(s.db, a, s.inFlight[a], ok);
    var t := State(Rewritten(s.db, a, change), s.inFlight - {a});
    NoJobInFlight(s, a);
    FinishRowsOk(s, t, a, ok);
    InFlightKeepsPlacement(s, a);
    RewriteKeepsInv(s, t, a, change);
  }

  lemma InFlightKeepsPlacement(s: State, a: string)
    requires a in s.inFlight && InFlightOk(s, a)
    ensures s.db.allocations[a].computeId == Some(s.inFlight[a].source)
  {
  }
}
