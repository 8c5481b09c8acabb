/**
 Nothing is stuck: from every valid state each placed allocation can be brought to rest, with its unit
 and its address free again. This settles which login users are lost for good.
 */
module Recovery {
  import opened Allocations
  import opened Options
  import opened Protocol
  import opened ProtocolJobs
  import opened ProtocolLocal
  import opened ProtocolRuns
  import opened ProtocolScale
  import opened Tables
  import opened Workers

  import ProtocolAdmin

  /** The allocation is deallocated, and this unit and its address are free. */
  ghost predicate AtRest(t: State, a: string, unit: string, ip: string) {
    && a in t.db.allocations && t.db.allocations[a].status == Deallocated && t.db.allocations[a].computeId.None?
    && unit in t.db.units && t.db.units[unit].status == UnitStatus.Free && t.db.units[unit].allocationId.None?
    && ip in t.db.pool && t.db.pool[ip] == FREE_ADDRESS
  }

  /** How many steps of its own a placed allocation is away from rest. */
  ghost function Distance(s: State, a: string): nat
    requires a in s.db.allocations
  {
    match s.db.allocations[a].status
    case Deallocated => 0
    case Deallocating => 1
    case Scaling => if a in s.inFlight then 3 else 4
    case Allocating => 3
    case _ => 2
  }

  /** The step towards rest kept the place, and came nearer. */
  ghost predicate Nearer(s: State, t: State, a: string)
    requires a in s.db.allocations
  {
    && a in t.db.allocations && t.db.allocations[a].computeId == s.db.allocations[a].computeId
    && t.db.allocations[a].ipAddress == s.db.allocations[a].ipAddress
    && Distance(t, a) < Distance(s, a)
  }

  lemma CreateEnds(s: State, a: string, unit: string)
    requires Inv(s) && AllocationCreate(a, unit) in s.db.jobs
    ensures var t := s.(db := CreateFinished(Taken(s.db, AllocationCreate(a, unit)), a, unit, true).db);
            a in s.db.allocations && Nearer(s, t, a)
  {
    hide Inv, CreateFinished, AllocationOk, Own;
    CreateIsAtomic(s, a, unit, true);
    JobIsOkHere(s, AllocationCreate(a, unit));
  }

  lemma JobIsOkHere(s: State, job: Command)
    requires Inv(s) && job in s.db.jobs
    ensures JobOk(s, job)
  {
    hide AllocationOk, UnitOk, AddressOk, InFlightOk, ServersOk, Exclusive, LoginsDistinct, CpusDisjoint;
    JobIsOk(s, job);
  }

  lemma BegunScaleIsNearer(s: State, a: string, filter: Filter)
    requires Inv(s) && AllocationScale(a, filter) in s.db.jobs
    ensures a in s.db.allocations && Nearer(s, BegunState(s, a, filter), a)
  {
    hide Inv, BegunState, AllocationOk;
    QueuedScaleFacts(s, a, filter);
    BeginIsAtomic(s, a, filter);
  }

  lemma FailedScaleIsNearer(s: State, a: string)
    requires Inv(s) && a in s.inFlight
    ensures var t := State(ScaleFinished(s.db, a, s.inFlight[a], false).db, s.inFlight - {a});
            a in s.db.allocations && Nearer(s, t, a)
  {
    hide Inv, ScaleFinished, AllocationOk, UnitOk;
    InFlightFacts(s, a);
    FinishIsAtomic(s, a, false);
  }

  /** A placed allocation that nothing is under way for. */
  predicate Settled(status: AllocationStatus) {
    status == AllocationStatus.Allocated || status == ScaleFail || status == AllocationStatus.AllocationFail
    || status == AllocationStatus.DeallocationFail
  }

  lemma DeallocationIsNearer(s: State, a: string)
    requires Inv(s) && a in s.db.allocations && s.db.allocations[a].computeId.Some?
             && Settled(s.db.allocations[a].status)
    ensures Nearer(s, s.(db := DeallocateOutcome(s.db, a).0), a)
  {
    hide UnitOk, AddressOk, InFlightOk, JobsOk, ServersOk, Exclusive, LoginsDistinct, CpusDisjoint, AwaitsScale,
         DeallocateOutcome;
    assert AllocationOk(s, a);
    DeallocateIsAtomic(s, a, s.db.allocations[a].computeId.value);
  }

  lemma DeletionEnds(s: State, a: string, unit: string)
    requires Inv(s) && AllocationDelete(a, unit) in s.db.jobs
    ensures a in s.db.allocations && s.db.allocations[a].computeId == Some(unit)
    ensures var t := s.(db := DeleteFinished(Taken(s.db, AllocationDelete(a, unit)), a, unit, true).db);
            AtRest(t, a, unit, s.db.allocations[a].ipAddress)
  {
    hide Inv, DeleteFinished, AllocationOk, Own;
    DeleteIsAtomic(s, a, unit, true);
    JobIsOkHere(s, AllocationDelete(a, unit));
  }

  /** The next step of its own that brings a placed allocation nearer to rest, or to it. */
  lemma NextStep(s: State, a: string) returns (e: Event)
    requires Inv(s) && a in s.db.allocations && s.db.allocations[a].computeId.Some?
    ensures Allowed(s, e) && Named(e) == Some(a)
    ensures Nearer(s, Step(s, e), a) || AtRest(Step(s, e), a, s.db.allocations[a].computeId.value,
            s.db.allocations[a].ipAddress)
  {
    hide Inv, Nearer, AtRest, AwaitsScale, CreateFinished, DeleteFinished, DeallocateOutcome, ScaleFinished,
         ScaleBegun;
    var unit := s.db.allocations[a].computeId.value;
    PendingWork(s, a);
    match s.db.allocations[a].status
    case Allocating =>
      e := RunCreate(a, unit, Successful);
      CreateEnds(s, a, unit);
    case Deallocating =>
      e := RunDelete(a, unit, Successful);
      DeletionEnds(s, a, unit);
    case Scaling =>
      if a in s.inFlight {
        e := FinishScale(a, Unsuccessful);
        FailedScaleIsNearer(s, a);
        FinishStep(s, a, Unsuccessful);
      } else {
        var filter := QueuedFilter(s, a);
        e := BeginScale(a, filter);
        BegunScaleIsNearer(s, a, filter);
        BeginStep(s, a, filter);
      }
    case _ =>
      e := Event.Deallocate(a);
      DeallocationIsNearer(s, a);
  }

  lemma PendingWork(s: State, a: string)
    requires Inv(s) && a in s.db.allocations && s.db.allocations[a].computeId.Some?
    ensures var row := s.db.allocations[a];
            && row.status != Deallocated && row.status != Requested
            && (row.status == AllocationStatus.Allocating ==> AllocationCreate(a, row.computeId.value) in s.db.jobs)
            && (row.status == AllocationStatus.Deallocating ==> AllocationDelete(a, row.computeId.value) in s.db.jobs)
            && (row.status == Scaling ==> a in s.inFlight || AwaitsScale(s, a))
  {
    hide UnitOk, AddressOk, InFlightOk, JobsOk, ServersOk, Exclusive, LoginsDistinct, CpusDisjoint, AwaitsScale;
    assert AllocationOk(s, a);
  }

  lemma QueuedFilter(s: State, a: string) returns (filter: Filter)
    requires AwaitsScale(s, a)
    ensures AllocationScale(a, filter) in s.db.jobs
  {
    filter :| AllocationScale(a, filter) in s.db.jobs;
  }

  /** Every event of the run names this allocation. */
  predicate OnlyAbout(events: seq<Event>, a: string) {
    forall i :: 0 <= i < |events| ==> Named(events[i]) == Some(a)
  }

  /**
   From every valid state, each placed allocation has an allowed run, of steps about it alone, after
   which it is DEALLOCATED and its unit and address are free.
   */
  lemma {:induction false} EveryPlacementCanEnd(s: State, a: string) returns (events: seq<Event>)
    requires Inv(s) && a in s.db.allocations && s.db.allocations[a].computeId.Some?
    ensures AllowedRun(s, events) && OnlyAbout(events, a)
    ensures AtRest(Run(s, events), a, s.db.allocations[a].computeId.value, s.db.allocations[a].ipAddress)
    decreases Distance(s, a)
  {
    hide Inv, Step, Allowed, AtRest, Named;
    var e := NextStep(s, a);
    var t := Step(s, e);
    StepKeepsInv(s, e);
    var unit, ip := s.db.allocations[a].computeId.value, s.db.allocations[a].ipAddress;
    if AtRest(t, a, unit, ip) {
      events := [e];
      assert events[1..] == [];
    } else {
      var rest := EveryPlacementCanEnd(t, a);
      events := [e] + rest;
      assert events[1..] == rest;
    }
  }

  // ---- Login users ----

  /** A failed request left this login user on a row that never changes again. */
  ghost predicate Abandoned(d: Database, login: string) {
    exists a :: a in d.allocations && d.allocations[a].loginUser == login
                && d.allocations[a].computeId.None? && d.allocations[a].status == AllocationStatus.AllocationFail
  }

  /** Whatever happens, the login user stays in use. */
  ghost predicate LostForGood(s: State, login: string) {
    forall events :: AllowedRun(s, events) ==> LoginActive(Run(s, events).db, login)
  }

  lemma {:induction false} OthersRowsStay(s: State, events: seq<Event>, a: string, b: string)
    requires Inv(s) && AllowedRun(s, events) && OnlyAbout(events, a) && b != a && b in s.db.allocations
    ensures b in Run(s, events).db.allocations && Run(s, events).db.allocations[b] == s.db.allocations[b]
    decreases |events|
  {
    hide Inv, Step, Allowed, Named, FootprintOf;
    if events != [] {
      StepIsolates(s, events[0], b);
      FootprintRow(s, Step(s, events[0]), b);
      StepKeepsInv(s, events[0]);
      OthersRowsStay(Step(s, events[0]), events[1..], a, b);
    }
  }

  /** Steps about a known allocation add no row. */
  lemma NamedStepAddsNone(s: State, e: Event, a: string)
    requires Inv(s) && Allowed(s, e) && Named(e) == Some(a) && a in s.db.allocations
    ensures Step(s, e).db.allocations.Keys == s.db.allocations.Keys
  {
    hide Inv, Step, Allowed, LocalTo, ProtocolAdmin.Quiet;
    StepKeepsInv(s, e);
    if ProtocolAdmin.Quiet(s, Step(s, e)) {
      QuietRows(s, Step(s, e));
    } else if LocalTo(s, Step(s, e), a) {
      LocalKeys(s, Step(s, e), a);
    }
  }

  lemma LocalKeys(s: State, t: State, a: string)
    requires LocalTo(s, t, a) && a in s.db.allocations
    ensures t.db.allocations.Keys == s.db.allocations.Keys
  {
    hide Own, OwnIp;
  }

  lemma {:induction false} RunAddsNone(s: State, events: seq<Event>, a: string)
    requires Inv(s) && AllowedRun(s, events) && OnlyAbout(events, a) && a in s.db.allocations
    ensures Run(s, events).db.allocations.Keys == s.db.allocations.Keys
    decreases |events|
  {
    hide Inv, Step, Allowed, Named;
    if events != [] {
      NamedStepAddsNone(s, events[0], a);
      StepKeepsInv(s, events[0]);
      RunAddsNone(Step(s, events[0]), events[1..], a);
    }
  }

  predicate HoldsLogin(d: Database, a: string, login: string) {
    a in d.allocations && d.allocations[a].loginUser == login && d.allocations[a].status != Deallocated
  }

  lemma SomeoneHolds(d: Database, login: string)
    requires LoginActive(d, login)
    ensures exists a :: HoldsLogin(d, a, login)
  {
    var a :| a in d.allocations && d.allocations[a].loginUser == login && d.allocations[a].status != Deallocated;
    assert HoldsLogin(d, a, login);
  }

  /** A login user that no abandoned row holds can be set free. */
  lemma HeldLoginCanBeFreed(s: State, login: string) returns (events: seq<Event>)
    requires Inv(s) && !Abandoned(s.db, login)
    ensures AllowedRun(s, events) && !LoginActive(Run(s, events).db, login)
  {
    hide Inv;
    events := [];
    if LoginActive(s.db, login) {
      SomeoneHolds(s.db, login);
    }
    if a :| HoldsLogin(s.db, a, login) {
      ActiveIsPlaced(s, a, login);
      events := EveryPlacementCanEnd(s, a);
      var t := Run(s, events);
      RunAddsNone(s, events, a);
      forall b | b in t.db.allocations && t.db.allocations[b].loginUser == login
        ensures t.db.allocations[b].status == Deallocated
      {
        if b != a {
          OthersRowsStay(s, events, a, b);
          OneActiveEach(s, a, b);
        }
      }
    }
  }

  lemma ActiveIsPlaced(s: State, a: string, login: string)
    requires Inv(s) && a in s.db.allocations && s.db.allocations[a].loginUser == login
    requires s.db.allocations[a].status != Deallocated && !Abandoned(s.db, login)
    ensures s.db.allocations[a].computeId.Some?
  {
    hide UnitOk, AddressOk, InFlightOk, JobsOk, ServersOk, Exclusive, LoginsDistinct, CpusDisjoint, AwaitsScale;
    assert AllocationOk(s, a);
  }

  lemma OneActiveEach(s: State, a: string, b: string)
    requires Inv(s) && a in s.db.allocations && b in s.db.allocations && a != b
    requires s.db.allocations[a].loginUser == s.db.allocations[b].loginUser && s.db.allocations[a].status != Deallocated
    ensures s.db.allocations[b].status == Deallocated
  {
    hide AllocationOk, UnitOk, AddressOk, InFlightOk, JobsOk, ServersOk, Exclusive, CpusDisjoint;
  }

  lemma AbandonedStaysActive(s: State, events: seq<Event>, login: string)
    requires Inv(s) && AllowedRun(s, events) && Abandoned(s.db, login)
    ensures LoginActive(Run(s, events).db, login)
  {
    hide Inv, AllowedRun, Run;
    var a :| a in s.db.allocations && s.db.allocations[a].loginUser == login
             && s.db.allocations[a].computeId.None? && s.db.allocations[a].status == AllocationStatus.AllocationFail;
    RunEndures(s, events, a);
  }

  /**
   A login user is lost for good exactly when a request for it failed after its row was stored: in any
   other valid state some allowed run leaves it unused.
   */
  lemma LoginIsLostExactly(s: State, login: string)
    requires Inv(s)
    ensures LostForGood(s, login) <==> Abandoned(s.db, login)
  {
    hide Inv, AllowedRun, Run, LoginActive, Abandoned;
    if Abandoned(s.db, login) {
      forall events | AllowedRun(s, events) ensures LoginActive(Run(s, events).db, login) {
        AbandonedStaysActive(s, events, login);
      }
    } else {
      var events := HeldLoginCanBeFreed(s, login);
      assert AllowedRun(s, events);
    }
  }
}
