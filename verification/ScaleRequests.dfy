/** From an accepted scale request to the unit the allocation ends on, in the words of the request. */
module ScaleRequests {
  import opened Allocations
  import opened Options
  import opened Protocol
  import opened ProtocolAdmin
  import opened ProtocolJobs
  import opened ProtocolLocal
  import opened ProtocolRuns
  import opened ProtocolScale
  import opened Repository
  import opened ServerLifecycle
  import opened Tables
  import opened Workers

  /** A free unit of the size asked for, on a ready and healthy host in the region and the zone asked for. */
  predicate Suits(d: Database, c: string, request: ScaleRequest) {
    && c in d.units && d.units[c].status == UnitStatus.Free && d.units[c].cpuCount == request.cpuCount
    && d.units[c].hostname in d.servers
    && var host := d.servers[d.units[c].hostname];
    && host.status == Ready && host.health == Healthy
    && (request.region.Some? ==> request.region.value == host.region)
    && (request.zone.Some? ==> request.zone.value == host.zone)
  }

  ghost predicate BeginsNot(events: seq<Event>, a: string) {
    forall i :: 0 <= i < |events| && events[i].BeginScale? ==> events[i].id != a
  }

  /** Nothing but its own worker takes a scale job from the queue, and nothing else can be about its allocation. */
  lemma QueuedScaleWaits(s: State, e: Event, a: string, filter: Filter)
    requires Inv(s) && Allowed(s, e) && AllocationScale(a, filter) in s.db.jobs && !(e.BeginScale? && e.id == a)
    ensures AllocationScale(a, filter) in Step(s, e).db.jobs
  {
    hide Inv, Quiet, LocalTo;
    QueuedScaleFacts(s, a, filter);
    assert Concerns(AllocationScale(a, filter)) == Some(a);
    if Named(e) == Some(a) {
      OwnStepIsRefused(s, e, a, filter);
    } else {
      hide Allowed, Step;
      StepKeepsInv(s, e);
      var t := Step(s, e);
      if Quiet(s, t) {
        QuietKeepsJob(s, t, AllocationScale(a, filter));
      } else if t != s {
        var b :| b != a && LocalTo(s, t, b);
        LocalKeepsJob(s, t, b, AllocationScale(a, filter));
      }
    }
  }

  lemma OwnStepIsRefused(s: State, e: Event, a: string, filter: Filter)
    requires Inv(s) && Allowed(s, e) && Named(e) == Some(a) && !e.BeginScale?
    requires AllocationScale(a, filter) in s.db.jobs
    requires a in s.db.allocations && s.db.allocations[a].status == Scaling && a !in s.inFlight
    ensures Step(s, e) == s
  {
    hide AllocationOk, UnitOk, AddressOk, InFlightOk, ServersOk, LoginsDistinct, CpusDisjoint, Exclusive;
    match e
    case Deallocate(id) =>
      assert false;
    case Scale(id, scale, fault) =>
      ScaleRefused(s, id, scale, fault);
    case RunCreate(id, unit, _) =>
      JobIsOk(s, AllocationCreate(id, unit));
      assert false;
    case RunDelete(id, unit, _) =>
      JobIsOk(s, AllocationDelete(id, unit));
      assert false;
    case FinishScale(id, _) =>
      assert false;
  }

  lemma QuietKeepsJob(s: State, t: State, job: Command)
    requires Quiet(s, t) && Concerns(job).Some? && job in s.db.jobs
    ensures job in t.db.jobs
  {
  }

  lemma LocalKeepsJob(s: State, t: State, b: string, job: Command)
    requires LocalTo(s, t, b) && Concerns(job) != Some(b) && job in s.db.jobs
    ensures job in t.db.jobs
  {
  }

  lemma {:induction false} QueuedScaleStays(s: State, events: seq<Event>, a: string, filter: Filter)
    requires Inv(s) && AllowedRun(s, events) && AllocationScale(a, filter) in s.db.jobs && BeginsNot(events, a)
    ensures AllocationScale(a, filter) in Run(s, events).db.jobs
    decreases |events|
  {
    hide Inv, Step, Allowed;
    if events != [] {
      StepKeepsInv(s, events[0]);
      QueuedScaleWaits(s, events[0], a, filter);
      assert BeginsNot(events[1..], a);
      QueuedScaleStays(Step(s, events[0]), events[1..], a, filter);
    }
  }

  /** The one job an accepted request queues. */
  lemma AcceptedScaleQueues(s: State, a: string, request: ScaleRequest)
    requires Inv(s) && ScaleOutcome(s.db, a, request, Works).1 == ScaleReply.ScaleQueued
    ensures var t := Step(s, Scale(a, request, Works));
            Inv(t) && AllocationScale(a, Filter(request.region, request.zone, Some(request.cpuCount))) in t.db.jobs
  {
    hide Inv;
    ScaleKeepsInv(s, a, request, Works);
  }

  lemma OneScaleEach(s: State, a: string, x: Filter, y: Filter)
    requires Inv(s) && AllocationScale(a, x) in s.db.jobs && AllocationScale(a, y) in s.db.jobs
    ensures x == y
  {
    hide AllocationOk, UnitOk, AddressOk, InFlightOk, ServersOk, LoginsDistinct, CpusDisjoint, Exclusive, JobOk;
    assert Rival(AllocationScale(a, x), AllocationScale(a, y));
  }

  /**
   What an accepted scale request comes to when its worker starts, whatever happened in between: it locks a
   unit that suits the request if there is one, and fails if there is none.
   */
  lemma ScaleLocksWhatWasAsked(s: State, a: string, request: ScaleRequest, events: seq<Event>, filter: Filter)
    requires Inv(s) && ScaleOutcome(s.db, a, request, Works).1 == ScaleReply.ScaleQueued
    requires AllowedRun(Step(s, Scale(a, request, Works)), events) && BeginsNot(events, a)
    requires Allowed(Run(Step(s, Scale(a, request, Works)), events), BeginScale(a, filter))
    ensures var t := Run(Step(s, Scale(a, request, Works)), events);
            var begun := Step(t, BeginScale(a, filter));
            && Inv(t) && a in begun.db.allocations
            && (a in begun.inFlight <==> exists c :: Suits(t.db, c, request))
            && (a in begun.inFlight ==> Suits(t.db, begun.inFlight[a].target, request))
            && (a !in begun.inFlight ==> begun.db.allocations[a].status == ScaleFail)
  {
    hide Inv, ScaleOutcome, AllowedRun, Run, BeginsNot, BegunState;
    var queued := Step(s, Scale(a, request, Works));
    var asked := Filter(request.region, request.zone, Some(request.cpuCount));
    AcceptedScaleQueues(s, a, request);
    QueuedScaleStays(queued, events, a, asked);
    RunKeepsInv(queued, events);
    var t := Run(queued, events);
    OneScaleEach(t, a, asked, filter);
    BeginStep(t, a, filter);
    BegunOnEligible(t, a, filter);
    forall c ensures Suits(t.db, c, request) <==> t.db.Eligible(filter, c) {
    }
  }

  lemma BegunOnEligible(s: State, a: string, filter: Filter)
    requires Inv(s) && AllocationScale(a, filter) in s.db.jobs
    ensures var t := BegunState(s, a, filter);
            && a in t.db.allocations
            && (a in t.inFlight <==> exists c :: s.db.Eligible(filter, c))
            && (a in t.inFlight ==> s.db.Eligible(filter, t.inFlight[a].target))
            && (a !in t.inFlight ==> t.db.allocations[a].status == ScaleFail)
  {
    hide Inv, BegunState, AllocationOk, Database.Eligible;
    QueuedScaleFacts(s, a, filter);
    BeginIsAtomic(s, a, filter);
    var d := Taken(s.db, AllocationScale(a, filter));
    forall c ensures d.Eligible(filter, c) <==> s.db.Eligible(filter, c) {
      TakingKeepsEligible(s.db, AllocationScale(a, filter), filter, c);
    }
  }

  lemma TakingKeepsEligible(d: Database, job: Command, filter: Filter, c: string)
    ensures Taken(d, job).Eligible(filter, c) <==> d.Eligible(filter, c)
  {
  }

  // ---- The host of a locked target ----

  ghost predicate SamePlace(s: State, t: State, hostname: string) {
    hostname in s.db.servers && hostname in t.db.servers
    && t.db.servers[hostname].status == s.db.servers[hostname].status == Ready
    && t.db.servers[hostname].region == s.db.servers[hostname].region
    && t.db.servers[hostname].zone == s.db.servers[hostname].zone
  }

  lemma TargetHostIsReady(s: State, a: string)
    requires Inv(s) && a in s.inFlight
    ensures SamePlace(s, s, s.inFlight[a].targetHost) && UnitsOn(s.db, s.inFlight[a].targetHost)
            && TargetOn(s, s.inFlight[a].targetHost)
  {
    hide AllocationOk, AddressOk, JobsOk, Exclusive, LoginsDistinct, ServersOk, CpusDisjoint, AwaitsScale;
    InFlightFacts(s, a);
  }

  /** A host with a locked target is not moved, re-initialised, decommissioned or deleted. */
  lemma TargetHostStays(s: State, e: Event, a: string)
    requires Inv(s) && Allowed(s, e) && a in s.inFlight
    ensures SamePlace(s, Step(s, e), s.inFlight[a].targetHost)
  {
    hide Inv, Step;
    TargetHostIsReady(s, a);
    StepMovesHost(s, e, s.inFlight[a].targetHost);
  }

  lemma {:induction false} TargetHostStaysOverRun(s: State, events: seq<Event>, a: string)
    requires Inv(s) && AllowedRun(s, events) && a in s.inFlight && FinishesNot(events, a)
    ensures SamePlace(s, Run(s, events), s.inFlight[a].targetHost)
    decreases |events|
  {
    hide Inv, Step, Allowed, FootprintOf;
    if events == [] {
      TargetHostIsReady(s, a);
    } else {
      StepKeepsInv(s, events[0]);
      TargetHostStays(s, events[0], a);
      OneStep(s, events[0]);
      assert FinishesNot([events[0]], a);
      RunningScaleIsUndisturbed(s, [events[0]], a);
      assert FinishesNot(events[1..], a);
      TargetHostStaysOverRun(Step(s, events[0]), events[1..], a);
    }
  }

  lemma OneStep(s: State, e: Event)
    requires Allowed(s, e)
    ensures AllowedRun(s, [e]) && Run(s, [e]) == Step(s, e)
  {
    assert [e][1..] == [];
  }

  /** The allocation is on a unit of the size asked for, in the region and the zone asked for. */
  ghost predicate PlacedAsAsked(d: Database, a: string, request: ScaleRequest) {
    && a in d.allocations && d.allocations[a].status == AllocationStatus.Allocated
    && d.allocations[a].computeId.Some? && d.allocations[a].computeId.value in d.units
    && var unit := d.units[d.allocations[a].computeId.value];
    && unit.cpuCount == request.cpuCount && unit.status == UnitStatus.Allocated && unit.allocationId == Some(a)
    && unit.hostname in d.servers
    && var host := d.servers[unit.hostname];
    && host.status == Ready
    && (request.region.Some? ==> host.region == request.region.value)
    && (request.zone.Some? ==> host.zone == request.zone.value)
  }

  /**
   The whole of it: an accepted scale request whose playbook succeeds leaves the allocation on a unit of the
   size asked for, in the region and the zone asked for, whatever other steps were taken before the worker
   started and while its playbook ran.
   */
  lemma ScaledAsRequested(s: State, a: string, request: ScaleRequest, events: seq<Event>, filter: Filter,
                          others: seq<Event>)
    requires Inv(s) && ScaleOutcome(s.db, a, request, Works).1 == ScaleReply.ScaleQueued
    requires AllowedRun(Step(s, Scale(a, request, Works)), events) && BeginsNot(events, a)
    requires Allowed(Run(Step(s, Scale(a, request, Works)), events), BeginScale(a, filter))
    requires var begun := Step(Run(Step(s, Scale(a, request, Works)), events), BeginScale(a, filter));
             a in begun.inFlight && AllowedRun(begun, others) && FinishesNot(others, a)
    ensures var begun := Step(Run(Step(s, Scale(a, request, Works)), events), BeginScale(a, filter));
            var before := Run(begun, others);
            && Allowed(before, FinishScale(a, Successful))
            && PlacedAsAsked(Step(before, FinishScale(a, Successful)).db, a, request)
  {
    hide Inv, Step, AllowedRun, Run, BeginsNot, FinishesNot, Suits, ScaleOutcome, PlacedAsAsked;
    var t := Run(Step(s, Scale(a, request, Works)), events);
    ScaleLocksWhatWasAsked(s, a, request, events, filter);
    FinishedAsAsked(t, a, request, filter, others);
  }

  lemma FinishedAsAsked(s: State, a: string, request: ScaleRequest, filter: Filter, others: seq<Event>)
    requires Inv(s) && Allowed(s, BeginScale(a, filter)) && a in Step(s, BeginScale(a, filter)).inFlight
    requires Suits(s.db, Step(s, BeginScale(a, filter)).inFlight[a].target, request)
    requires AllowedRun(Step(s, BeginScale(a, filter)), others) && FinishesNot(others, a)
    ensures var before := Run(Step(s, BeginScale(a, filter)), others);
            && Allowed(before, FinishScale(a, Successful))
            && PlacedAsAsked(Step(before, FinishScale(a, Successful)).db, a, request)
  {
    hide Inv, Step, AllowedRun, Run, FinishesNot, FootprintOf, LocalTo;
    var begun := Step(s, BeginScale(a, filter));
    var before := Run(begun, others);
    StepKeepsInv(s, BeginScale(a, filter));
    RunningScaleIsUndisturbed(begun, others, a);
    TargetHostStaysOverRun(begun, others, a);
    TargetKeepsRow(s, a, filter, request);
    FootprintTarget(begun, before, a);
    RunKeepsInv(begun, others);
    FinishPlaces(before, a);
    FinishStep(before, a, Successful);
  }

  /** Locking a target changes its status, nothing else of it, and no host. */
  lemma TargetKeepsRow(s: State, a: string, filter: Filter, request: ScaleRequest)
    requires Inv(s) && Allowed(s, BeginScale(a, filter)) && a in Step(s, BeginScale(a, filter)).inFlight
    requires Suits(s.db, Step(s, BeginScale(a, filter)).inFlight[a].target, request)
    ensures var t := Step(s, BeginScale(a, filter));
            var job := t.inFlight[a];
            && job.target in t.db.units && t.db.units[job.target].cpuCount == request.cpuCount
            && t.db.units[job.target].hostname == job.targetHost
            && t.db.servers == s.db.servers && s.db.units[job.target].hostname == job.targetHost
  {
    hide Inv, BegunState, AllocationOk;
    BeginStep(s, a, filter);
    QueuedScaleFacts(s, a, filter);
    BeginIsAtomic(s, a, filter);
  }

  lemma FinishPlaces(s: State, a: string)
    requires Inv(s) && a in s.inFlight
    ensures var job := s.inFlight[a];
            var e := ScaleFinished(s.db, a, job, true).db;
            && a in e.allocations && e.allocations[a].status == AllocationStatus.Allocated
            && e.allocations[a].computeId == Some(job.target)
            && job.target in s.db.units && job.target in e.units
            && e.units[job.target] == s.db.units[job.target].(status := UnitStatus.Allocated, allocationId := Some(a))
            && e.servers == s.db.servers && s.db.units[job.target].hostname == job.targetHost
  {
    hide Inv, ScaleFinished, AllocationOk, UnitOk;
    InFlightFacts(s, a);
    FinishIsAtomic(s, a, true);
  }
}
