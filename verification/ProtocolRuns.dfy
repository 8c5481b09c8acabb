/** What holds over whole runs: the invariant, isolation, stable identities, and conservation. */
module ProtocolRuns {
  import opened Administration
  import opened Allocations
  import opened Collections
  import opened CpuRange
  import opened Options
  import opened Protocol
  import opened ProtocolAdmin
  import opened ProtocolAllocate
  import opened ProtocolJobs
  import opened ProtocolLocal
  import opened ProtocolScale
  import opened ServerSpecs
  import opened Tables
  import opened Workers

  /** A run that starts in s, every step allowed where it is taken. */
  ghost predicate AllowedRun(s: State, events: seq<Event>)
    decreases |events|
  {
    events == [] || (Allowed(s, events[0]) && AllowedRun(Step(s, events[0]), events[1..]))
  }

  ghost function Run(s: State, events: seq<Event>): State
    requires AllowedRun(s, events)
    decreases |events|
  {
    if events == [] then s else Run(Step(s, events[0]), events[1..])
  }

  ghost predicate Reachable(s: State) {
    exists events :: AllowedRun(InitialState(), events) && Run(InitialState(), events) == s
  }

  /** The allocation an event names. */
  function Named(e: Event): Option<string> {
    match e
    case Deallocate(id) => Some(id)
    case Scale(id, _, _) => Some(id)
    case RunCreate(id, _, _) => Some(id)
    case RunDelete(id, _, _) => Some(id)
    case BeginScale(id, _) => Some(id)
    case FinishScale(id, _) => Some(id)
    case _ => None
  }

  /** How far a step reaches: nowhere, into one allocation, or into nothing that is in use. */
  ghost predicate Reach(s: State, e: Event, t: State) {
    || t == s
    || Quiet(s, t)
    || (Named(e).Some? && LocalTo(s, t, Named(e).value))
    || (Named(e).None? && exists id :: id !in s.db.allocations && LocalTo(s, t, id))
  }

  lemma StepKeepsInv(s: State, e: Event)
    requires Inv(s) && Allowed(s, e)
    ensures Inv(Step(s, e)) && Reach(s, e, Step(s, e))
  {
    hide Inv, Quiet, LocalTo, ValidUnits, InitGuard, DecommissionGuard, NotScaling;
    hide AllocateOutcome, DeallocateOutcome, ScaleOutcome, InitServerOutcome, DecommissionOutcome,
         DeleteServerOutcome;
    hide InsertAddressesOutcome, DeleteAddressOutcome, Probed, CreateFinished, DeleteFinished, ScaleBegun,
         ScaleFinished;
    hide InitFinished, DecommFinished;
    match e
    case Allocate(request, plan) => AllocateKeepsInv(s, request, plan);
    case Deallocate(id) => DeallocateKeepsInv(s, id);
    case Scale(id, scale, fault) => ScaleKeepsInv(s, id, scale, fault);
    case InitServer(init) => InitServerKeepsInv(s, init);
    case Decommission(hostname) => DecommissionKeepsInv(s, hostname);
    case DeleteServer(hostname) => DeleteServerKeepsInv(s, hostname);
    case InsertAddresses(addresses) => InsertAddressesKeepsInv(s, addresses);
    case DeleteAddress(ip) => DeleteAddressKeepsInv(s, ip);
    case Probe(hostname, health) => ProbeKeepsInv(s, hostname, health);
    case RunCreate(id, unit, result) => RunCreateKeepsInv(s, id, unit, result.Successful?);
    case RunDelete(id, unit, result) => RunDeleteKeepsInv(s, id, unit, result.Successful?);
    case BeginScale(id, filter) => BeginScaleKeepsInv(s, id, filter);
    case FinishScale(id, result) => FinishScaleKeepsInv(s, id, result.Successful?);
    case RunInit(init, result) => RunInitKeepsInv(s, init, result);
    case RunDecomm(hostname, result) => RunDecommKeepsInv(s, hostname, result);
  }

  lemma {:induction false} RunKeepsInv(s: State, events: seq<Event>)
    requires Inv(s) && AllowedRun(s, events)
    ensures Inv(Run(s, events))
    decreases |events|
  {
    hide Inv, Step, Allowed;
    if events != [] {
      StepKeepsInv(s, events[0]);
      RunKeepsInv(Step(s, events[0]), events[1..]);
    }
  }

  /** Every reachable state satisfies the invariant. */
  lemma ReachableIsValid(s: State)
    requires Reachable(s)
    ensures Inv(s)
  {
    hide Inv, Step, Allowed, Run;
    var events :| AllowedRun(InitialState(), events) && Run(InitialState(), events) == s;
    InitialStateIsValid();
    RunKeepsInv(InitialState(), events);
  }

  // ---- Isolation ----

  /** All that the database and a running scale hold for one allocation. */
  datatype Footprint = Footprint(
    row: Allocation, unit: Option<ComputeUnit>, address: Option<IpAddress>,
    job: Option<ScaleJob>, target: Option<ComputeUnit>)

  function Lookup<V>(m: map<string, V>, key: Option<string>): Option<V> {
    if key.Some? && key.value in m then Some(m[key.value]) else None
  }

  function FootprintOf(s: State, a: string): Footprint
    requires a in s.db.allocations
  {
    var row := s.db.allocations[a];
    var job := Lookup(s.inFlight, Some(a));
    Footprint(
      row,
      Lookup(s.db.units, row.computeId),
      if row.computeId.Some? then Lookup(s.db.pool, Some(row.ipAddress)) else None,
      job,
      if job.Some? then Lookup(s.db.units, Some(job.value.target)) else None)
  }

  lemma LocalSpares(s: State, t: State, a: string, b: string)
    requires Inv(s) && LocalTo(s, t, a) && b in s.db.allocations && b != a
    ensures b in t.db.allocations && FootprintOf(t, b) == FootprintOf(s, b)
  {
    hide AllocationOk, UnitOk, AddressOk, JobsOk, ServersOk, LoginsDistinct, CpusDisjoint, Exclusive, Own, OwnIp,
         IdentityKept, SameUnit;
    assert AllocationOk(s, b);
    forall c | Holds(s, b, c) || Targets(s, b, c) ensures c in s.db.units && !Own(s, a, c) {
      OthersNotOwn(s, a, b, c);
    }
    OthersIpNotOwn(s, a, b);
    PlacedAddressInPool(s, b);
    assert b in s.inFlight <==> b in s.inFlight - {a};
    assert b in t.inFlight <==> b in t.inFlight - {a};
    var row := s.db.allocations[b];
    assert row.computeId.Some? ==> Holds(s, b, row.computeId.value);
    assert b in s.inFlight ==> Targets(s, b, s.inFlight[b].target);
  }

  lemma PlacedAddressInPool(s: State, a: string)
    requires a in s.db.allocations && AllocationOk(s, a)
    ensures s.db.allocations[a].computeId.Some? ==>
              s.db.allocations[a].ipAddress in s.db.pool && s.db.allocations[a].computeId.value in s.db.units
              && s.db.units[s.db.allocations[a].computeId.value].status != UnitStatus.Free
              && s.db.pool[s.db.allocations[a].ipAddress].status != IpStatus.Free
  {
  }

  lemma QuietSpares(s: State, t: State, b: string)
    requires Inv(s) && Quiet(s, t) && b in s.db.allocations
    ensures b in t.db.allocations && FootprintOf(t, b) == FootprintOf(s, b)
  {
    hide AllocationOk, UnitOk, AddressOk, JobsOk, ServersOk, LoginsDistinct, CpusDisjoint, Exclusive, JobsQuiet,
         HostsQuiet;
    assert AllocationOk(s, b);
    PlacedAddressInPool(s, b);
    if b in s.inFlight {
      assert InFlightOk(s, b);
    }
  }

  /**
   Isolation: a step that does not name an allocation changes nothing of it. Its row, its unit, its
   address, and the locked target of its running scale stay as they are.
   */
  lemma StepIsolates(s: State, e: Event, b: string)
    requires Inv(s) && Allowed(s, e) && b in s.db.allocations && Named(e) != Some(b)
    ensures b in Step(s, e).db.allocations && FootprintOf(Step(s, e), b) == FootprintOf(s, b)
  {
    hide Inv, Step, Allowed, Quiet, LocalTo, FootprintOf;
    StepKeepsInv(s, e);
    var t := Step(s, e);
    if Quiet(s, t) {
      QuietSpares(s, t, b);
    } else if t != s {
      var a :| a != b && LocalTo(s, t, a);
      LocalSpares(s, t, a, b);
    }
  }

  // ---- A running scale ----

  /** No step between the two halves of a scale can be about the allocation being scaled. */
  lemma InFlightStepIsElsewhere(s: State, e: Event, a: string)
    requires Inv(s) && Allowed(s, e) && a in s.inFlight && !(e.FinishScale? && e.id == a)
    ensures a in s.db.allocations
    ensures Named(e) == Some(a) ==> Step(s, e) == s
  {
    hide UnitOk, AddressOk, ServersOk, LoginsDistinct, CpusDisjoint, Exclusive;
    assert InFlightOk(s, a);
    if Named(e) == Some(a) {
      match e
      case Deallocate(id) =>
        assert false;
      case Scale(id, scale, fault) =>
        ScaleRefused(s, id, scale, fault);
      case RunCreate(id, unit, _) =>
        JobIsOk(s, AllocationCreate(id, unit));
        assert false;
      case RunDelete(id, unit, _) =>
        JobIsOk(s, AllocationDelete(id, unit));
        assert false;
      case BeginScale(id, filter) =>
        QueuedScaleFacts(s, id, filter);
        assert false;
      case _ =>
    }
  }

  ghost predicate FinishesNot(events: seq<Event>, a: string) {
    forall i :: 0 <= i < |events| && events[i].FinishScale? ==> events[i].id != a
  }

  /**
   While a scale's playbook runs, whatever else happens, its allocation keeps its placement, the
   target stays locked for it, and the worker's local variables stay right.
   */
  lemma {:induction false} RunningScaleIsUndisturbed(s: State, events: seq<Event>, a: string)
    requires Inv(s) && AllowedRun(s, events) && a in s.inFlight && FinishesNot(events, a)
    ensures var t := Run(s, events);
            && a in t.inFlight && t.inFlight[a] == s.inFlight[a]
            && a in s.db.allocations && a in t.db.allocations && FootprintOf(t, a) == FootprintOf(s, a)
    decreases |events|
  {
    hide Inv, Step, Allowed, UnitOk, AllocationOk;
    assert a in s.db.allocations by {
      InFlightFacts(s, a);
    }
    if events != [] {
      var e, next := events[0], Step(s, events[0]);
      StepKeepsInv(s, e);
      assert !(e.FinishScale? && e.id == a);
      InFlightStepIsElsewhere(s, e, a);
      if Named(e) != Some(a) {
        StepIsolates(s, e, a);
      }
      assert FootprintOf(next, a) == FootprintOf(s, a);
      assert a in next.inFlight && next.inFlight[a] == s.inFlight[a];
      assert FinishesNot(events[1..], a);
      RunningScaleIsUndisturbed(next, events[1..], a);
    }
  }

  /** Where an allocation is, as the three tables agree on it. */
  ghost predicate SettledOn(s: State, a: string, unit: string, hostname: string) {
    && a in s.db.allocations && unit in s.db.units
    && s.db.allocations[a].computeId == Some(unit) && s.db.allocations[a].currentHost == Some(hostname)
    && s.db.units[unit].status == UnitStatus.Allocated && s.db.units[unit].allocationId == Some(a)
    && s.db.units[unit].hostname == hostname
    && s.db.allocations[a].ipAddress in s.db.pool
    && s.db.pool[s.db.allocations[a].ipAddress] == IpAddress(IpStatus.Allocated, Some(a), Some(hostname))
  }

  ghost predicate FreeUnit(s: State, unit: string) {
    unit in s.db.units && s.db.units[unit].status == UnitStatus.Free && s.db.units[unit].allocationId.None?
  }

  /** The state of a scale between its halves: placed on the source, with a locked target that differs from it. */
  ghost predicate Migrating(s: State, a: string, job: ScaleJob) {
    && a in s.inFlight && s.inFlight[a] == job
    && SettledOn(s, a, job.source, job.sourceHost)
    && job.target in s.db.units && job.target != job.source
    && s.db.units[job.target].status == UnitStatus.Allocating && s.db.units[job.target].allocationId.None?
    && s.db.units[job.target].hostname == job.targetHost
    && forall filter :: !s.db.Eligible(filter, job.target)
  }

  lemma InFlightMigrates(s: State, a: string)
    requires Inv(s) && a in s.inFlight
    ensures Migrating(s, a, s.inFlight[a])
  {
    hide AddressOk, ServersOk, Exclusive, LoginsDistinct, CpusDisjoint, JobsOk, AwaitsScale, UnitOk;
    InFlightFacts(s, a);
  }

  lemma FinishSettles(s: State, a: string, ok: bool)
    requires Inv(s) && a in s.inFlight
    ensures var job := s.inFlight[a];
            var t := State(ScaleFinished(s.db, a, job, ok).db, s.inFlight - {a});
            if ok then SettledOn(t, a, job.target, job.targetHost) && FreeUnit(t, job.source)
            else SettledOn(t, a, job.source, job.sourceHost) && FreeUnit(t, job.target)
  {
    hide AddressOk, ServersOk, Exclusive, LoginsDistinct, CpusDisjoint, JobsOk, AwaitsScale, UnitOk, ScaleFinished,
         Inv;
    InFlightFacts(s, a);
    FinishIsAtomic(s, a, ok);
  }

  /**
   A whole scale, with any steps between its halves: the allocation stays on its source until the
   worker commits, nobody can claim the target, and afterwards exactly one of the two units is free
   and the other belongs to the allocation, on the host that all three tables name. The login user
   and the address never change.
   */
  lemma ScaleMigratesOrReturns(s: State, a: string, filter: Filter, events: seq<Event>, result: PlaybookResult)
    requires Inv(s) && Allowed(s, BeginScale(a, filter))
    requires var begun := Step(s, BeginScale(a, filter));
             a in begun.inFlight && AllowedRun(begun, events) && FinishesNot(events, a)
    ensures var begun := Step(s, BeginScale(a, filter));
            var job := begun.inFlight[a];
            var before := Run(begun, events);
            && Holds(s, a, job.source) && FreeUnit(s, job.target) && s.db.Eligible(filter, job.target)
            && Migrating(begun, a, job) && Migrating(before, a, job)
            && Allowed(before, FinishScale(a, result))
            && var after := Step(before, FinishScale(a, result));
            && Inv(after) && a !in after.inFlight
            && (if result.Successful? then SettledOn(after, a, job.target, job.targetHost)
                  && FreeUnit(after, job.source)
                else SettledOn(after, a, job.source, job.sourceHost) && FreeUnit(after, job.target))
            && a in s.db.allocations
            && after.db.allocations[a].loginUser == s.db.allocations[a].loginUser
            && after.db.allocations[a].ipAddress == s.db.allocations[a].ipAddress
  {
    hide Inv, Step, Run, Migrating, SettledOn, FreeUnit, FootprintOf, FinishesNot, BegunState, AllowedRun, LocalTo,
         ScaleFinished;
    hide Database.Eligible;
    var begun := Step(s, BeginScale(a, filter));
    BeginStep(s, a, filter);
    BegunScaleFacts(s, a, filter);
    BeginScaleKeepsInv(s, a, filter);
    RunKeepsInv(begun, events);
    RunningScaleIsUndisturbed(begun, events, a);
    var before := Run(begun, events);
    InFlightMigrates(begun, a);
    InFlightMigrates(before, a);
    FootprintRow(begun, before, a);
    FinishSettles(before, a, result.Successful?);
    FinishScaleKeepsInv(before, a, result.Successful?);
    FinishStep(before, a, result);
    LocalKeepsIdentity(before, Step(before, FinishScale(a, result)), a);
  }

  lemma BeginStep(s: State, a: string, filter: Filter)
    requires AllocationScale(a, filter) in s.db.jobs
    ensures Step(s, BeginScale(a, filter)) == BegunState(s, a, filter)
  {
  }

  lemma FinishStep(s: State, a: string, result: PlaybookResult)
    requires a in s.inFlight
    ensures Step(s, FinishScale(a, result))
         == State(ScaleFinished(s.db, a, s.inFlight[a], result.Successful?).db, s.inFlight - {a})
  {
  }

  lemma FootprintRow(s: State, t: State, a: string)
    requires a in s.db.allocations && a in t.db.allocations && FootprintOf(s, a) == FootprintOf(t, a)
    ensures s.db.allocations[a] == t.db.allocations[a]
  {
  }

  lemma LocalKeepsIdentity(s: State, t: State, a: string)
    requires a in s.db.allocations && LocalTo(s, t, a)
    ensures a in t.db.allocations
    ensures t.db.allocations[a].loginUser == s.db.allocations[a].loginUser
    ensures t.db.allocations[a].ipAddress == s.db.allocations[a].ipAddress
  {
  }

  lemma BegunScaleFacts(s: State, a: string, filter: Filter)
    requires Inv(s) && AllocationScale(a, filter) in s.db.jobs && a in BegunState(s, a, filter).inFlight
    ensures var t := BegunState(s, a, filter);
            var job := t.inFlight[a];
            && a in s.db.allocations && Holds(s, a, job.source) && FreeUnit(s, job.target)
              && s.db.Eligible(filter, job.target)
            && a in t.db.allocations && t.db.allocations[a] == s.db.allocations[a]
  {
    hide AddressOk, ServersOk, Exclusive, LoginsDistinct, CpusDisjoint, JobsOk, AwaitsScale, AllocationOk, InFlightOk,
         BegunState;
    QueuedScaleFacts(s, a, filter);
    BeginIsAtomic(s, a, filter);
    var d := Taken(s.db, AllocationScale(a, filter));
    assert PickUnit(d, filter).Some?;
    var target := PickUnit(d, filter).value;
    assert d.Eligible(filter, target) && s.db.Eligible(filter, target);
    assert UnitOk(s, target);
  }

  lemma LocalKeepsUnits(s: State, t: State, a: string, c: string)
    requires LocalTo(s, t, a) && c in s.db.units
    ensures c in t.db.units && SameUnit(t.db.units[c], s.db.units[c])
  {
    hide Own, OwnIp;
  }

  lemma FootprintTarget(s: State, t: State, a: string)
    requires a in s.db.allocations && a in t.db.allocations && FootprintOf(s, a) == FootprintOf(t, a)
    requires a in s.inFlight && s.inFlight[a].target in s.db.units
    ensures a in t.inFlight && t.inFlight[a].target in t.db.units
    ensures t.inFlight[a] == s.inFlight[a] && t.db.units[t.inFlight[a].target] == s.db.units[s.inFlight[a].target]
  {
  }

  /**
   A successful scale ends on a unit of the requested size, on a host that was ready, healthy and in the
   requested region and zone when the unit was chosen.
   */
  lemma ScaleMeetsRequest(s: State, a: string, filter: Filter, events: seq<Event>)
    requires Inv(s) && Allowed(s, BeginScale(a, filter))
    requires var begun := Step(s, BeginScale(a, filter));
             a in begun.inFlight && AllowedRun(begun, events) && FinishesNot(events, a)
    ensures var begun := Step(s, BeginScale(a, filter));
            var target := begun.inFlight[a].target;
            var before := Run(begun, events);
            && Allowed(before, FinishScale(a, Successful))
            && var after := Step(before, FinishScale(a, Successful));
            && target in s.db.units && target in after.db.units && s.db.units[target].hostname in s.db.servers
            && Holds(after, a, target)
            && after.db.units[target].hostname == s.db.units[target].hostname
            && (filter.cpuCount.Some? ==> after.db.units[target].cpuCount == filter.cpuCount.value)
            && var server := s.db.servers[s.db.units[target].hostname];
            && server.status == Ready && server.health == Healthy
            && (filter.region.Some? ==> server.region == filter.region.value)
            && (filter.zone.Some? ==> server.zone == filter.zone.value)
  {
    hide Inv, Step, Run, Migrating, FreeUnit, FootprintOf, FinishesNot, BegunState, AllowedRun, LocalTo,
         ScaleFinished;
    var begun := Step(s, BeginScale(a, filter));
    var target := begun.inFlight[a].target;
    BeginStep(s, a, filter);
    BegunScaleFacts(s, a, filter);
    BeginScaleKeepsInv(s, a, filter);
    LocalKeepsUnits(s, begun, a, target);
    RunKeepsInv(begun, events);
    RunningScaleIsUndisturbed(begun, events, a);
    var before := Run(begun, events);
    FootprintTarget(begun, before, a);
    FinishSettles(before, a, true);
    FinishScaleKeepsInv(before, a, true);
    FinishStep(before, a, Successful);
    LocalKeepsUnits(before, Step(before, FinishScale(a, Successful)), a, target);
  }

  // ---- Identity and rest ----

  /** A known allocation keeps its login user and address; one at rest keeps its whole row. */
  ghost predicate Endures(s: State, t: State, a: string)
    requires a in s.db.allocations
  {
    && a in t.db.allocations
    && t.db.allocations[a].loginUser == s.db.allocations[a].loginUser
    && t.db.allocations[a].ipAddress == s.db.allocations[a].ipAddress
    && (Terminal(s.db.allocations[a]) ==> t.db.allocations[a] == s.db.allocations[a])
  }

  lemma StepEndures(s: State, e: Event, a: string)
    requires Inv(s) && Allowed(s, e) && a in s.db.allocations
    ensures Endures(s, Step(s, e), a)
  {
    hide Inv, Step, Allowed, Quiet, LocalTo;
    StepKeepsInv(s, e);
    var t := Step(s, e);
    if Quiet(s, t) {
      QuietRows(s, t);
    } else if t != s {
      var b :| LocalTo(s, t, b) && (b !in s.db.allocations || Named(e) == Some(b));
      if b == a {
        LocalKeepsIdentity(s, t, a);
        LocalIsPlaced(s, t, a);
      } else {
        LocalRows(s, t, b, a);
      }
    }
  }

  lemma QuietRows(s: State, t: State)
    requires Quiet(s, t)
    ensures t.db.allocations == s.db.allocations
  {
  }

  lemma LocalRows(s: State, t: State, a: string, b: string)
    requires LocalTo(s, t, a) && b in s.db.allocations && b != a
    ensures b in t.db.allocations && t.db.allocations[b] == s.db.allocations[b]
  {
  }

  lemma LocalIsPlaced(s: State, t: State, a: string)
    requires LocalTo(s, t, a) && a in s.db.allocations
    ensures !Terminal(s.db.allocations[a])
  {
  }

  /**
   Over any run, an allocation's login user and address never change, and a deallocated or abandoned
   allocation never changes again.
   */
  lemma {:induction false} RunEndures(s: State, events: seq<Event>, a: string)
    requires Inv(s) && AllowedRun(s, events) && a in s.db.allocations
    ensures Endures(s, Run(s, events), a)
    decreases |events|
  {
    hide Inv, Step, Allowed;
    if events != [] {
      StepKeepsInv(s, events[0]);
      StepEndures(s, events[0], a);
      RunEndures(Step(s, events[0]), events[1..], a);
    }
  }

  // ---- What a valid state says ----

  /** A placed allocation's address is in the pool, leased to it, and the admin cannot remove it. */
  lemma LeasedAddressStays(s: State, a: string)
    requires Inv(s) && a in s.db.allocations && s.db.allocations[a].computeId.Some?
    ensures var ip := s.db.allocations[a].ipAddress;
            && ip in s.db.pool && s.db.pool[ip].allocationId == Some(a)
            && DeleteAddressOutcome(s.db, ip) == (s.db, OperationError)
  {
    hide UnitOk, AddressOk, InFlightOk, JobsOk, ServersOk, Exclusive, LoginsDistinct, CpusDisjoint, AwaitsScale;
    assert AllocationOk(s, a);
  }

  /** Two placed allocations never share a unit, an address or, on one host, a CPU. */
  lemma PlacedAllocationsShareNothing(s: State, a: string, b: string)
    requires Inv(s) && a in s.db.allocations && b in s.db.allocations && a != b
    requires s.db.allocations[a].computeId.Some? && s.db.allocations[b].computeId.Some?
    ensures var x, y := s.db.allocations[a], s.db.allocations[b];
            && x.computeId.value in s.db.units && y.computeId.value in s.db.units
            && x.computeId != y.computeId && x.ipAddress != y.ipAddress && x.loginUser != y.loginUser
            && (x.currentHost == y.currentHost ==>
                  CpusOf(s.db.units[x.computeId.value].cpuSet) !! CpusOf(s.db.units[y.computeId.value].cpuSet))
  {
    hide UnitOk, AddressOk, InFlightOk, JobsOk, ServersOk, AwaitsScale, CpusOf;
    assert AllocationOk(s, a) && AllocationOk(s, b);
    var c := s.db.allocations[a].computeId.value;
    assert Holds(s, a, c);
    assert s.db.allocations[b].computeId == Some(c) ==> Holds(s, b, c);
  }

  /** A host on its way in or out has nothing placed on it and is no target of a running scale. */
  lemma OnlyReadyHostsAreUsed(s: State, hostname: string)
    requires Inv(s) && hostname in s.db.servers && s.db.servers[hostname].status != Ready
    ensures forall a :: a in s.db.allocations ==> s.db.allocations[a].currentHost != Some(hostname)
    ensures !ActiveOn(s.db, hostname)
    ensures forall a :: a in s.inFlight ==> s.inFlight[a].targetHost != hostname
    ensures var after := s.db.WithoutServer(hostname); after.allocations == s.db.allocations && after.pool == s.db.pool
    ensures s.db.WithoutUnits(hostname).allocations == s.db.allocations
  {
    hide UnitOk, AddressOk, JobsOk, ServersOk, AwaitsScale, AllocationOk, InFlightOk;
    NotReadyIsIdle(s, hostname);
    IdleHostUnnamed(s, hostname);
    CascadeIsHarmless(s, hostname);
    IdleUnitsGoQuietly(s, hostname);
    forall a | a in s.inFlight ensures s.inFlight[a].targetHost != hostname {
      InFlightMigrates(s, a);
    }
  }

  ghost predicate CreateQueued(s: State, a: string) {
    exists c :: AllocationCreate(a, c) in s.db.jobs
  }

  ghost predicate DeleteQueuedFor(s: State, a: string) {
    exists c :: AllocationDelete(a, c) in s.db.jobs
  }

  /** An allocation in transition has exactly one pending job or running scale; one at rest has none. */
  lemma StatusMatchesJobs(s: State, a: string)
    requires Inv(s) && a in s.db.allocations
    ensures var status := s.db.allocations[a].status;
            && (status == AllocationStatus.Allocating <==> CreateQueued(s, a))
            && (status == AllocationStatus.Deallocating <==> DeleteQueuedFor(s, a))
            && (status == Scaling <==> AwaitsScale(s, a) || a in s.inFlight)
            && !(AwaitsScale(s, a) && a in s.inFlight)
    ensures forall x, y :: x in s.db.jobs && y in s.db.jobs && Concerns(x) == Some(a) && Concerns(y) == Some(a) ==>
             x == y
    ensures forall x :: x in s.db.jobs ==> s.db.jobs[x] == 1
  {
    hide UnitOk, AddressOk, ServersOk, Exclusive, LoginsDistinct, CpusDisjoint, ValidUnits;
    assert AllocationOk(s, a);
    assert a in s.inFlight ==> InFlightOk(s, a);
    forall x | x in s.db.jobs && Concerns(x) == Some(a) ensures JobOk(s, x) {
      JobIsOk(s, x);
    }
    forall x | x in s.db.jobs && Concerns(x) == Some(a)
      ensures forall y :: y in s.db.jobs && Concerns(y) == Some(a) ==> y == x
    {
      OneJobEach(s, a, x);
    }
    assert forall c :: Concerns(AllocationCreate(a, c)) == Some(a);
    assert forall c :: Concerns(AllocationDelete(a, c)) == Some(a);
    assert forall f :: Concerns(AllocationScale(a, f)) == Some(a);
    if s.db.allocations[a].computeId.None? {
      QuietMeansNone(s, a);
    }
  }

  // ---- Conservation ----

  function Placed(s: State): set<string> {
    set a | a in s.db.allocations && s.db.allocations[a].computeId.Some?
  }

  function UnitsInUse(s: State): set<string> {
    set c | c in s.db.units && s.db.units[c].status != UnitStatus.Free
  }

  function AddressesInUse(s: State): set<string> {
    set ip | ip in s.db.pool && s.db.pool[ip].status != IpStatus.Free
  }

  function HeldUnits(s: State): set<string> {
    set a | a in Placed(s) :: s.db.allocations[a].computeId.value
  }

  function LockedTargets(s: State): set<string> {
    set a | a in s.inFlight :: s.inFlight[a].target
  }

  lemma UnitsInUseSplit(s: State)
    requires Inv(s)
    ensures UnitsInUse(s) == HeldUnits(s) + LockedTargets(s) && HeldUnits(s) !! LockedTargets(s)
  {
    hide Inv, UnitsInUse, HeldUnits, LockedTargets;
    forall c ensures c in UnitsInUse(s) ==> c in HeldUnits(s) || c in LockedTargets(s) {
      if c in UnitsInUse(s) {
        InUseIsHeldOrLocked(s, c);
      }
    }
    forall c ensures c in HeldUnits(s) ==> c in UnitsInUse(s) && c !in LockedTargets(s) {
      if c in HeldUnits(s) {
        HeldIsInUse(s, c);
      }
    }
    forall c ensures c in LockedTargets(s) ==> c in UnitsInUse(s) {
      if c in LockedTargets(s) {
        LockedIsInUse(s, c);
      }
    }
  }

  lemma InUseIsHeldOrLocked(s: State, c: string)
    requires Inv(s) && c in UnitsInUse(s)
    ensures c in HeldUnits(s) || c in LockedTargets(s)
  {
    hide AllocationOk, InFlightOk, AddressOk, JobsOk, ServersOk, LoginsDistinct, CpusDisjoint, Exclusive;
    assert UnitOk(s, c);
    var a :| Holds(s, a, c) || Targets(s, a, c);
    assert Holds(s, a, c) ==> a in Placed(s);
  }

  lemma HeldIsInUse(s: State, c: string)
    requires Inv(s) && c in HeldUnits(s)
    ensures c in UnitsInUse(s) && c !in LockedTargets(s)
  {
    hide UnitOk, AddressOk, JobsOk, ServersOk, LoginsDistinct, CpusDisjoint, AwaitsScale, Exclusive;
    var a :| a in Placed(s) && s.db.allocations[a].computeId.value == c;
    assert AllocationOk(s, a);
    forall b | b in s.inFlight ensures s.inFlight[b].target != c {
      assert InFlightOk(s, b);
    }
  }

  lemma LockedIsInUse(s: State, c: string)
    requires Inv(s) && c in LockedTargets(s)
    ensures c in UnitsInUse(s)
  {
    hide AllocationOk, UnitOk, AddressOk, JobsOk, ServersOk, LoginsDistinct, CpusDisjoint, AwaitsScale, Exclusive;
    var b :| b in s.inFlight && s.inFlight[b].target == c;
    assert InFlightOk(s, b);
  }

  /**
   Conservation: the units in use are as many as the placed allocations and the running scales
   together, and the addresses in use as many as the placed allocations.
   */
  lemma Conservation(s: State)
    requires Inv(s)
    ensures |UnitsInUse(s)| == |Placed(s)| + |s.inFlight|
    ensures |AddressesInUse(s)| == |Placed(s)|
  {
    UnitsInUseSplit(s);
    HeldUnitsCount(s);
    TargetsCount(s);
    AddressesCount(s);
    assert |s.inFlight.Keys| == |s.inFlight|;
  }

  lemma HeldUnitsCount(s: State)
    requires Inv(s)
    ensures |HeldUnits(s)| == |Placed(s)|
  {
    hide AllocationOk, UnitOk, AddressOk, InFlightOk, JobsOk, ServersOk, LoginsDistinct, CpusDisjoint;
    var f := map a | a in Placed(s) :: s.db.allocations[a].computeId.value;
    forall a, b | a in Placed(s) && b in Placed(s) && f[a] == f[b] ensures a == b {
      assert Holds(s, a, f[a]) && Holds(s, b, f[a]);
    }
    BijectionSize(Placed(s), HeldUnits(s), f);
  }

  lemma TargetsCount(s: State)
    requires Inv(s)
    ensures |LockedTargets(s)| == |s.inFlight.Keys|
  {
    hide AllocationOk, UnitOk, AddressOk, InFlightOk, JobsOk, ServersOk, LoginsDistinct, CpusDisjoint;
    var f := map a | a in s.inFlight :: s.inFlight[a].target;
    forall a, b | a in s.inFlight && b in s.inFlight && f[a] == f[b] ensures a == b {
      assert Targets(s, a, f[a]) && Targets(s, b, f[a]);
    }
    BijectionSize(s.inFlight.Keys, LockedTargets(s), f);
  }

  lemma AddressesCount(s: State)
    requires Inv(s)
    ensures |AddressesInUse(s)| == |Placed(s)|
  {
    hide UnitOk, InFlightOk, JobsOk, ServersOk, LoginsDistinct, CpusDisjoint, Exclusive, AwaitsScale;
    var f := map a | a in Placed(s) :: s.db.allocations[a].ipAddress;
    forall a | a in Placed(s) ensures f[a] in AddressesInUse(s) && s.db.pool[f[a]].allocationId == Some(a) {
      assert AllocationOk(s, a);
    }
    forall ip | ip in AddressesInUse(s) ensures exists a :: a in Placed(s) && f[a] == ip {
      assert AddressOk(s, ip);
      assert s.db.pool[ip].allocationId.value in Placed(s);
    }
    BijectionSize(Placed(s), AddressesInUse(s), f);
  }
}
