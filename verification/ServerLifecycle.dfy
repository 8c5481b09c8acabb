/** The life of one host: which statuses follow which, what each job result means, and who may leave. */
module ServerLifecycle {
  import opened Administration
  import opened Allocations
  import opened Options
  import opened Protocol
  import opened ProtocolAdmin
  import opened ProtocolAllocate
  import opened ProtocolJobs
  import opened ProtocolLocal
  import opened ProtocolRuns
  import opened ProtocolScale
  import opened ServerSpecs
  import opened Tables
  import opened Workers

  /** What one event makes of the row of a known host. */
  ghost predicate Moves(e: Event, hostname: string, before: Server, after: Option<Server>) {
    match e
    case InitServer(init) =>
      if init.hostname == hostname && init.zone.Some?
      then after == Some(Server(Initializing, Unknown, init.region, init.zone.value))
      else after == Some(before)
    case Decommission(h) =>
      if h == hostname
      then after == Some(before) || after == Some(before.(status := Decommissioning))
      else after == Some(before)
    case DeleteServer(h) =>
      if h == hostname
         && (before.status == Decommissioned || before.status == InitFail || before.status == DecommissionFail)
      then after.None? else after == Some(before)
    case Probe(h, health) =>
      if h == hostname then after == Some(before.(health := health)) else after == Some(before)
    case RunInit(init, result) =>
      if init.hostname != hostname || result.Crashed? then after == Some(before)
      else
        && before.status == Initializing
        && after == Some(if result.Successful? then before.(status := Ready, health := Healthy)
                         else before.(status := InitFail))
    case RunDecomm(h, result) =>
      if h != hostname || result.Crashed? then after == Some(before)
      else
        && before.status == Decommissioning
        && after == Some(before.(status := if result.Successful? then Decommissioned else DecommissionFail,
                                 health := Unknown))
    case _ => after == Some(before)
  }

  function RowOf(d: Database, hostname: string): Option<Server> {
    if hostname in d.servers then Some(d.servers[hostname]) else None
  }

  predicate AboutAllocation(e: Event) {
    e.Allocate? || Named(e).Some?
  }

  lemma LocalKeepsServers(s: State, t: State, a: string)
    requires LocalTo(s, t, a)
    ensures t.db.servers == s.db.servers
  {
    hide Own, OwnIp;
  }

  /** A step of an allocation leaves every host alone. */
  lemma AllocationStepKeepsServers(s: State, e: Event)
    requires Inv(s) && Allowed(s, e)
    requires AboutAllocation(e)
    ensures Step(s, e).db.servers == s.db.servers
  {
    hide Inv, LocalTo, AllocateOutcome, DeallocateOutcome, ScaleOutcome, CreateFinished, DeleteFinished, ScaleBegun,
         ScaleFinished;
    var t := Step(s, e);
    if t != s {
      match e
      case Allocate(request, plan) =>
        AllocateKeepsInv(s, request, plan);
        var id :| LocalTo(s, t, id);
        LocalKeepsServers(s, t, id);
      case Deallocate(id) =>
        DeallocateKeepsInv(s, id);
        LocalKeepsServers(s, t, id);
      case Scale(id, scale, fault) =>
        ScaleKeepsInv(s, id, scale, fault);
        LocalKeepsServers(s, t, id);
      case RunCreate(id, c, result) =>
        RunCreateKeepsInv(s, id, c, result.Successful?);
        LocalKeepsServers(s, t, id);
      case RunDelete(id, c, result) =>
        RunDeleteKeepsInv(s, id, c, result.Successful?);
        LocalKeepsServers(s, t, id);
      case BeginScale(id, filter) =>
        BeginScaleKeepsInv(s, id, filter);
        BeginStep(s, id, filter);
        LocalKeepsServers(s, t, id);
      case FinishScale(id, result) =>
        FinishScaleKeepsInv(s, id, result.Successful?);
        LocalKeepsServers(s, t, id);
    }
  }

  lemma ServerJobStatus(s: State, job: Command)
    requires Inv(s) && job in s.db.jobs
    ensures job.ServerInit? ==> job.request.hostname in s.db.servers
                                && s.db.servers[job.request.hostname].status == Initializing
    ensures job.ServerDecomm? ==> job.hostname in s.db.servers && s.db.servers[job.hostname].status == Decommissioning
  {
    hide AllocationOk, UnitOk, AddressOk, InFlightOk, ServersOk, Exclusive, LoginsDistinct, CpusDisjoint, ValidUnits;
    JobIsOk(s, job);
  }

  /** What an init job leaves, whatever its list. */
  lemma InitJobDecides(s: State, init: InitRequest, result: PlaybookResult)
    requires Inv(s) && ValidUnits(init.specs) && ServerInit(init) in s.db.jobs
    ensures init.hostname in s.db.servers && s.db.servers[init.hostname].status == Initializing
    ensures var before := s.db.servers[init.hostname];
            var e := InitFinished(Taken(s.db, ServerInit(init)), init, result).db;
            match result
            case Successful => e.servers == s.db.servers[init.hostname := before.(status := Ready, health := Healthy)]
            case Unsuccessful =>
              e.servers == s.db.servers[init.hostname := before.(status := InitFail)] && e.units == s.db.units
            case Crashed => e.servers == s.db.servers && e.units == s.db.units
  {
    hide Inv, InitUnits, InsertedUnits, AllApart;
    ServerJobStatus(s, ServerInit(init));
    InsertedUnitsFacts(Taken(s.db, ServerInit(init)), init.hostname, InitUnits(init.specs));
  }

  /** What a decommission job leaves: after success no unit of the host, otherwise every unit. */
  lemma DecommJobDecides(s: State, hostname: string, result: PlaybookResult)
    requires Inv(s) && ServerDecomm(hostname) in s.db.jobs
    ensures hostname in s.db.servers && s.db.servers[hostname].status == Decommissioning
    ensures var before := s.db.servers[hostname];
            var e := DecommFinished(Taken(s.db, ServerDecomm(hostname)), hostname, result).db;
            match result
            case Successful =>
              && e.servers == s.db.servers[hostname := before.(status := Decommissioned, health := Unknown)]
              && (forall c :: c in e.units <==> c in s.db.units && s.db.units[c].hostname != hostname)
              && (forall c :: c in e.units ==> e.units[c] == s.db.units[c])
              && e.allocations == s.db.allocations
            case Unsuccessful =>
              e.servers == s.db.servers[hostname := before.(status := DecommissionFail, health := Unknown)]
              && e.units == s.db.units
            case Crashed => e.servers == s.db.servers && e.units == s.db.units
  {
    hide Inv, Idle;
    ServerJobStatus(s, ServerDecomm(hostname));
    DecommJobFacts(s, hostname);
    IdleUnitsGoQuietly(s, hostname);
    var d := Taken(s.db, ServerDecomm(hostname)).WithServerStatus(hostname, Decommissioned);
    RemainingUnits(d, hostname);
    SameUnitsSameRest(d, s.db, hostname);
  }

  lemma ServerJobMovesHost(s: State, e: Event, hostname: string)
    requires Inv(s) && Allowed(s, e) && (e.RunInit? || e.RunDecomm?)
    ensures hostname in s.db.servers ==> Moves(e, hostname, s.db.servers[hostname], RowOf(Step(s, e).db, hostname))
    ensures hostname !in s.db.servers ==> hostname !in Step(s, e).db.servers
  {
    hide Inv, ValidUnits, InitFinished, DecommFinished;
    match e
    case RunInit(init, result) =>
      InitJobDecides(s, init, result);
    case RunDecomm(h, result) =>
      DecommJobDecides(s, h, result);
  }

  lemma RequestMovesHost(s: State, e: Event, hostname: string)
    requires Allowed(s, e) && !e.RunInit? && !e.RunDecomm? && !AboutAllocation(e)
    ensures hostname in s.db.servers ==> Moves(e, hostname, s.db.servers[hostname], RowOf(Step(s, e).db, hostname))
    ensures hostname !in s.db.servers && !(e.InitServer? && e.init.hostname == hostname) ==>
              hostname !in Step(s, e).db.servers
  {
    hide Allowed, ActiveOn, Database.WithoutUnits, WithAddresses;
  }

  /** Every allowed step does to a host's row what its event says, and nothing to any other. */
  lemma StepMovesHost(s: State, e: Event, hostname: string)
    requires Inv(s) && Allowed(s, e)
    ensures hostname in s.db.servers ==> Moves(e, hostname, s.db.servers[hostname], RowOf(Step(s, e).db, hostname))
    ensures hostname !in s.db.servers && !(e.InitServer? && e.init.hostname == hostname) ==>
              hostname !in Step(s, e).db.servers
  {
    hide Inv, Step, Allowed;
    if AboutAllocation(e) {
      AllocationStepKeepsServers(s, e);
    } else if e.RunInit? || e.RunDecomm? {
      ServerJobMovesHost(s, e, hostname);
    } else {
      RequestMovesHost(s, e, hostname);
    }
  }

  // ---- Leaving ----

  /** The host is on its way out or gone. */
  ghost predicate Gone(d: Database, hostname: string) {
    hostname in d.servers ==>
      d.servers[hostname].status == Decommissioning || d.servers[hostname].status == Decommissioned
      || d.servers[hostname].status == DecommissionFail
  }

  ghost predicate Reinitialises(events: seq<Event>, hostname: string) {
    exists k :: 0 <= k < |events| && events[k].InitServer? && events[k].init.hostname == hostname
  }

  lemma LaterInit(events: seq<Event>, hostname: string)
    requires events != [] && Reinitialises(events[1..], hostname)
    ensures Reinitialises(events, hostname)
  {
    var k :| 0 <= k < |events| - 1 && events[1..][k].InitServer? && events[1..][k].init.hostname == hostname;
    assert events[k + 1] == events[1..][k];
  }

  lemma GoneStaysGone(s: State, e: Event, hostname: string)
    requires Inv(s) && Allowed(s, e) && Gone(s.db, hostname) && !(e.InitServer? && e.init.hostname == hostname)
    ensures Gone(Step(s, e).db, hostname)
  {
    hide Inv, Step, Allowed;
    StepMovesHost(s, e, hostname);
  }

  lemma GoneOffersNothing(d: Database, hostname: string)
    requires Gone(d, hostname)
    ensures forall filter, c :: c in d.units && d.units[c].hostname == hostname ==> !d.Eligible(filter, c)
  {
  }

  /**
   Leaving is final: once a host has begun to leave, then over any run without a new init request for it
   the host is never READY, and none of its units can be claimed by anyone.
   */
  lemma {:induction false} LeavingHostStaysOut(s: State, events: seq<Event>, hostname: string)
    requires Inv(s) && AllowedRun(s, events) && Gone(s.db, hostname) && !Reinitialises(events, hostname)
    ensures var d := Run(s, events).db;
            && Gone(d, hostname)
            && (hostname in d.servers ==> d.servers[hostname].status != Ready)
            && forall filter, c :: c in d.units && d.units[c].hostname == hostname ==> !d.Eligible(filter, c)
    decreases |events|
  {
    hide Inv, Step, Allowed, Database.Eligible;
    if events == [] {
      GoneOffersNothing(s.db, hostname);
    } else {
      GoneStaysGone(s, events[0], hostname);
      StepKeepsInv(s, events[0]);
      if Reinitialises(events[1..], hostname) {
        LaterInit(events, hostname);
      }
      LeavingHostStaysOut(Step(s, events[0]), events[1..], hostname);
    }
  }
}
