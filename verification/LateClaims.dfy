/**
 The split lock inside the protocol: a unit is selected, other steps of a run follow, and only then is
 the unit, if it is still free, taken for an allocation or as the target of a scale.
 */
module LateClaims {
  import opened Administration
  import opened Allocations
  import opened Options
  import opened Protocol
  import opened ProtocolAdmin
  import opened ProtocolAllocate
  import opened ProtocolJobs
  import opened ProtocolLocal
  import opened ProtocolRuns
  import opened ProtocolScale
  import opened ServerSpecs
  import opened Tables
  import opened Workers

  /** The unit is there, and its host is ready. */
  ghost predicate OnReadyHost(s: State, unit: string, hostname: string) {
    && unit in s.db.units && s.db.units[unit].hostname == hostname
    && hostname in s.db.servers && s.db.servers[hostname].status == Ready
  }

  lemma LocalKeepsHost(s: State, t: State, a: string, unit: string, hostname: string)
    requires LocalTo(s, t, a) && OnReadyHost(s, unit, hostname)
    ensures OnReadyHost(t, unit, hostname)
  {
    hide Own, OwnIp;
  }

  /** A job on another host. */
  lemma ServerJobIsElsewhere(s: State, job: Command, hostname: string)
    requires Inv(s) && job in s.db.jobs && hostname in s.db.servers && s.db.servers[hostname].status == Ready
    ensures HostOf(job) != Some(hostname)
  {
    hide AllocationOk, UnitOk, AddressOk, InFlightOk, ServersOk, Exclusive, LoginsDistinct, CpusDisjoint, ValidUnits;
    JobIsOk(s, job);
  }

  lemma ServerStepKeepsHost(s: State, e: Event, unit: string, hostname: string)
    requires Inv(s) && Allowed(s, e) && OnReadyHost(s, unit, hostname) && e != Decommission(hostname)
    requires e.InitServer? || e.Decommission? || e.DeleteServer? || e.Probe?
             || e.InsertAddresses? || e.DeleteAddress? || e.RunInit? || e.RunDecomm?
    ensures OnReadyHost(Step(s, e), unit, hostname)
  {
    hide Inv, ValidUnits, InitFinished, DecommFinished, DeleteServerOutcome, ActiveOn;
    match e
    case InitServer(init) =>
      assert UnitsOn(s.db, hostname);
    case DeleteServer(h) =>
      DeleteKeepsHost(s, h, unit, hostname);
    case RunInit(init, result) =>
      InitJobKeepsHost(s, init, result, unit, hostname);
    case RunDecomm(h, result) =>
      DecommJobKeepsHost(s, h, result, unit, hostname);
    case _ =>
  }

  lemma DeleteKeepsHost(s: State, h: string, unit: string, hostname: string)
    requires OnReadyHost(s, unit, hostname)
    ensures OnReadyHost(s.(db := DeleteServerOutcome(s.db, h).0), unit, hostname)
  {
    if h != hostname {
      RemainingUnits(s.db, h);
    }
  }

  lemma InitJobKeepsHost(s: State, init: InitRequest, result: PlaybookResult, unit: string, hostname: string)
    requires Inv(s) && ValidUnits(init.specs) && ServerInit(init) in s.db.jobs && OnReadyHost(s, unit, hostname)
    ensures OnReadyHost(s.(db := InitFinished(Taken(s.db, ServerInit(init)), init, result).db), unit, hostname)
  {
    hide Inv, InitUnits, InsertedUnits, AllApart;
    ServerJobIsElsewhere(s, ServerInit(init), hostname);
    InitKeepsUnits(s, init);
  }

  lemma DecommJobKeepsHost(s: State, h: string, result: PlaybookResult, unit: string, hostname: string)
    requires Inv(s) && ServerDecomm(h) in s.db.jobs && OnReadyHost(s, unit, hostname)
    ensures OnReadyHost(s.(db := DecommFinished(Taken(s.db, ServerDecomm(h)), h, result).db), unit, hostname)
  {
    hide Inv;
    ServerJobIsElsewhere(s, ServerDecomm(h), hostname);
    RemainingUnits(Taken(s.db, ServerDecomm(h)).WithServerStatus(h, Decommissioned), h);
  }

  lemma InitKeepsUnits(s: State, init: InitRequest)
    requires Inv(s) && ValidUnits(init.specs) && ServerInit(init) in s.db.jobs
    ensures var p := InsertedUnits(Taken(s.db, ServerInit(init)), init.hostname, InitUnits(init.specs));
            && !p.raised && p.db.servers == s.db.servers
            && forall c :: c in s.db.units ==> c in p.db.units && p.db.units[c] == s.db.units[c]
  {
    hide AllocationOk, UnitOk, AddressOk, InFlightOk, ServersOk, Exclusive, LoginsDistinct, CpusDisjoint, AllApart,
         InitUnits, InsertedUnits;
    JobIsOk(s, ServerInit(init));
    InsertedUnitsFacts(Taken(s.db, ServerInit(init)), init.hostname, InitUnits(init.specs));
  }

  /** A host that is ready and has units leaves that state by an accepted decommission only. */
  lemma StepKeepsHost(s: State, e: Event, unit: string, hostname: string)
    requires Inv(s) && Allowed(s, e) && OnReadyHost(s, unit, hostname) && e != Decommission(hostname)
    ensures OnReadyHost(Step(s, e), unit, hostname)
  {
    hide Inv, LocalTo, OnReadyHost, AllocateOutcome, DeallocateOutcome, ScaleOutcome, CreateFinished, DeleteFinished,
         ScaleBegun, ScaleFinished;
    var t := Step(s, e);
    if t != s {
      match e
      case Allocate(request, plan) =>
        AllocateKeepsInv(s, request, plan);
        var id :| LocalTo(s, t, id);
        LocalKeepsHost(s, t, id, unit, hostname);
      case Deallocate(id) =>
        DeallocateKeepsInv(s, id);
        LocalKeepsHost(s, t, id, unit, hostname);
      case Scale(id, scale, fault) =>
        ScaleKeepsInv(s, id, scale, fault);
        LocalKeepsHost(s, t, id, unit, hostname);
      case RunCreate(id, c, result) =>
        RunCreateKeepsInv(s, id, c, result.Successful?);
        LocalKeepsHost(s, t, id, unit, hostname);
      case RunDelete(id, c, result) =>
        RunDeleteKeepsInv(s, id, c, result.Successful?);
        LocalKeepsHost(s, t, id, unit, hostname);
      case BeginScale(id, filter) =>
        BeginScaleKeepsInv(s, id, filter);
        BeginStep(s, id, filter);
        LocalKeepsHost(s, t, id, unit, hostname);
      case FinishScale(id, result) =>
        FinishScaleKeepsInv(s, id, result.Successful?);
        LocalKeepsHost(s, t, id, unit, hostname);
      case _ =>
        ServerStepKeepsHost(s, e, unit, hostname);
    }
  }

  lemma {:induction false} RunKeepsHost(s: State, events: seq<Event>, unit: string, hostname: string)
    requires Inv(s) && AllowedRun(s, events) && OnReadyHost(s, unit, hostname)
    requires forall k :: 0 <= k < |events| ==> events[k] != Decommission(hostname)
    ensures OnReadyHost(Run(s, events), unit, hostname)
    decreases |events|
  {
    hide Inv, Step, Allowed, OnReadyHost;
    if events != [] {
      StepKeepsHost(s, events[0], unit, hostname);
      StepKeepsInv(s, events[0]);
      RunKeepsHost(Step(s, events[0]), events[1..], unit, hostname);
    }
  }

  ghost predicate HostReady(d: Database, unit: string) {
    unit in d.units && d.units[unit].hostname in d.servers && d.servers[d.units[unit].hostname].status == Ready
  }

  ghost predicate Decommissions(events: seq<Event>, hostname: string) {
    exists k :: 0 <= k < |events| && events[k] == Decommission(hostname)
  }

  /** A selected unit that is still free later: its host is ready, or was told to leave in between. */
  lemma SelectedStaysOrLeaves(s: State, filter: Filter, events: seq<Event>)
    requires Inv(s) && AllowedRun(s, events) && PickUnit(s.db, filter).Some?
    requires FreeUnitOf(Run(s, events).db, PickUnit(s.db, filter).value)
    ensures var unit := PickUnit(s.db, filter).value;
            && unit in s.db.units
            && (HostReady(Run(s, events).db, unit) || Decommissions(events, s.db.units[unit].hostname))
  {
    hide Inv, AllowedRun, Run, Step, Allowed;
    var unit := PickUnit(s.db, filter).value;
    var hostname := s.db.units[unit].hostname;
    PickIsFreeAndReady(s.db, filter);
    assert OnReadyHost(s, unit, hostname);
    if !Decommissions(events, hostname) {
      RunKeepsHost(s, events, unit, hostname);
    }
  }

  /**
   An allocation whose lock was overtaken: the unit was selected in s, any allowed steps followed, and
   the unit is still free. Carrying on then keeps the invariant if and only if the request is refused
   or the unit's host is ready at the update; and if it is not, the host was decommissioned in between.
   */
  lemma LateAllocateIsExact(s: State, request: AllocationRequest, plan: FaultPlan, events: seq<Event>)
    requires Inv(s) && AllowedRun(s, events) && PickUnit(s.db, request.filter).Some? && !plan.LosesEffect()
    requires FreeUnitOf(Run(s, events).db, PickUnit(s.db, request.filter).value)
    ensures var unit := PickUnit(s.db, request.filter).value;
            var t := Run(s, events);
            var (e, reply) := AllocateOn(t.db, request, plan, unit);
            && unit in s.db.units
            && (Inv(t.(db := e)) <==> reply.Refused? || HostReady(t.db, unit))
            && (!Inv(t.(db := e)) ==> Decommissions(events, s.db.units[unit].hostname))
  {
    hide Inv, AllowedRun, Run, AllocateOn, LocalTo, Decommissions;
    RunKeepsInv(s, events);
    SelectedStaysOrLeaves(s, request.filter, events);
    AllocateOnIsExact(Run(s, events), request, plan, PickUnit(s.db, request.filter).value);
  }

  // ---- Scale ----

  /** What the worker goes on with once it holds this target; its job counts as queued until then. */
  ghost function LateBegun(t: State, a: string, filter: Filter, target: string): State
    requires a in t.db.allocations && t.db.allocations[a].computeId.Some?
    requires t.db.allocations[a].computeId.value in t.db.units && target in t.db.units
  {
    var row := t.db.allocations[a];
    var (db, job) := ScaleBegunOn(Taken(t.db, AllocationScale(a, filter)), row.ipAddress, row.computeId.value, target);
    State(db, t.inFlight[a := job.value])
  }

  lemma LateBegunIsTarget(t: State, a: string, filter: Filter, target: string)
    requires a in t.db.allocations && AllocationOk(t, a) && t.db.allocations[a].computeId.Some?
    requires target in t.db.units
    ensures t.db.allocations[a].computeId.value in t.db.units && t.db.allocations[a].ipAddress in t.db.pool
    ensures t.db.allocations[a].currentHost.Some?
    ensures LateBegun(t, a, filter, target) == TargetState(t, a, filter, target)
  {
    hide AwaitsScale;
    var row := t.db.allocations[a];
    var locked := t.db.units[target].(status := UnitStatus.Allocating);
    assert t.db.allocations[a := row] == t.db.allocations;
    assert t.db.pool[row.ipAddress := t.db.pool[row.ipAddress]] == t.db.pool;
    assert t.db.units + map[target := locked] == t.db.units[target := locked];
  }

  lemma TargetNeedsReady(t: State, a: string, filter: Filter, target: string)
    requires a in t.db.allocations && t.db.allocations[a].ipAddress in t.db.pool && target in t.db.units
    requires t.db.allocations[a].computeId.Some? && t.db.allocations[a].currentHost.Some?
    requires !HostReady(t.db, target)
    ensures !Inv(TargetState(t, a, filter, target))
  {
    hide AllocationOk, AddressOk, InFlightOk, JobsOk, Exclusive, LoginsDistinct, ServersOk, CpusDisjoint;
    assert !UnitOk(TargetState(t, a, filter, target), target);
  }

  /** The same for a scale whose lock was overtaken. */
  lemma LateTargetIsExact(s: State, a: string, filter: Filter, events: seq<Event>)
    requires Inv(s) && AllowedRun(s, events) && PickUnit(s.db, filter).Some?
    requires FreeUnitOf(Run(s, events).db, PickUnit(s.db, filter).value)
             && AllocationScale(a, filter) in Run(s, events).db.jobs
    ensures var target := PickUnit(s.db, filter).value;
            var t := Run(s, events);
            && a in t.db.allocations && t.db.allocations[a].computeId.Some?
            && t.db.allocations[a].computeId.value in t.db.units && target in s.db.units
            && (Inv(LateBegun(t, a, filter, target)) <==> HostReady(t.db, target))
            && (!Inv(LateBegun(t, a, filter, target)) ==> Decommissions(events, s.db.units[target].hostname))
  {
    hide Inv, AllowedRun, Run, LocalTo, LateBegun, TargetState, AllocationOk, Decommissions;
    RunKeepsInv(s, events);
    SelectedStaysOrLeaves(s, filter, events);
    var t, target := Run(s, events), PickUnit(s.db, filter).value;
    QueuedScaleFacts(t, a, filter);
    LateBegunIsTarget(t, a, filter, target);
    if HostReady(t.db, target) {
      TargetKeepsInv(t, a, filter, target);
    } else {
      TargetNeedsReady(t, a, filter, target);
    }
  }
}
