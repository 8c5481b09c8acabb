/** The life of one allocation over whole runs: which statuses follow which, and what is never undone. */
module Lifecycle {
  import opened Allocations
  import opened Options
  import opened Protocol
  import opened ProtocolAllocate
  import opened ProtocolJobs
  import opened ProtocolRuns
  import opened ProtocolScale
  import opened Repository
  import opened Rollback
  import opened Tables
  import opened Text
  import opened Workers

  /** The edges of the lifecycle. */
  predicate Follows(before: AllocationStatus, after: AllocationStatus) {
    match before
    case Requested => false
    case Allocating => after == AllocationStatus.Allocated || after == AllocationStatus.AllocationFail
    case Allocated => after == Scaling || after == AllocationStatus.Deallocating
    case Scaling => after == AllocationStatus.Allocated || after == ScaleFail
    case ScaleFail => after == AllocationStatus.Deallocating
    case AllocationFail => after == AllocationStatus.Deallocating
    case Deallocating => after == Deallocated || after == AllocationStatus.DeallocationFail
    case DeallocationFail => after == AllocationStatus.Deallocating
    case Deallocated => false
  }

  /** The statuses from which an allocation never runs again. */
  predicate Leaving(status: AllocationStatus) {
    status == ScaleFail || status == AllocationStatus.AllocationFail || status == AllocationStatus.Deallocating
    || status == AllocationStatus.DeallocationFail || status == Deallocated
  }

  ghost predicate Advances(s: State, t: State, a: string)
    requires a in s.db.allocations
  {
    a in t.db.allocations
    && (t.db.allocations[a].status == s.db.allocations[a].status
        || (!Terminal(s.db.allocations[a]) && Follows(s.db.allocations[a].status, t.db.allocations[a].status)))
  }

  lemma RowDecides(s: State, t: State, a: string)
    requires a in s.db.allocations && a in t.db.allocations && s.db.allocations[a] == t.db.allocations[a]
    ensures Advances(s, t, a)
  {
  }

  lemma DeallocateAdvances(s: State, a: string)
    requires Inv(s) && a in s.db.allocations && NotScaling(s.db, a)
    ensures Advances(s, s.(db := DeallocateOutcome(s.db, a).0), a)
  {
    hide AddressOk, InFlightOk, JobsOk, ServersOk, Exclusive, LoginsDistinct, CpusDisjoint, AwaitsScale,
         DeallocateOutcome, UnitOk;
    if unit :| CanDeallocate(s, a, unit) {
      DeallocateIsAtomic(s, a, unit);
      assert AllocationOk(s, a);
    } else {
      DeallocateRefused(s, a);
    }
  }

  lemma ScaleAdvances(s: State, a: string, request: ScaleRequest, fault: CallFault)
    requires Inv(s) && a in s.db.allocations && fault != FailsAfter
    ensures Advances(s, s.(db := ScaleOutcome(s.db, a, request, fault).0), a)
  {
    hide Inv, ScaleOutcome;
    if CanScale(s, a, request) {
      ScaleIsAtomic(s, a, request);
    } else {
      ScaleRefused(s, a, request, fault);
    }
  }

  lemma CreateAdvances(s: State, a: string, unit: string, ok: bool)
    requires Inv(s) && AllocationCreate(a, unit) in s.db.jobs && a in s.db.allocations
    ensures Advances(s, s.(db := CreateFinished(Taken(s.db, AllocationCreate(a, unit)), a, unit, ok).db), a)
  {
    hide Inv, CreateFinished, AllocationOk;
    JobNamesPlacement(s, AllocationCreate(a, unit), a, unit);
    CreateIsAtomic(s, a, unit, ok);
  }

  lemma DeleteAdvances(s: State, a: string, unit: string, ok: bool)
    requires Inv(s) && AllocationDelete(a, unit) in s.db.jobs && a in s.db.allocations
    ensures Advances(s, s.(db := DeleteFinished(Taken(s.db, AllocationDelete(a, unit)), a, unit, ok).db), a)
  {
    hide Inv, DeleteFinished, AllocationOk;
    JobNamesPlacement(s, AllocationDelete(a, unit), a, unit);
    DeleteIsAtomic(s, a, unit, ok);
  }

  lemma BeginAdvances(s: State, a: string, filter: Filter)
    requires Inv(s) && AllocationScale(a, filter) in s.db.jobs && a in s.db.allocations
    ensures Advances(s, BegunState(s, a, filter), a)
  {
    hide Inv, BegunState, AllocationOk;
    QueuedScaleFacts(s, a, filter);
    BeginIsAtomic(s, a, filter);
  }

  lemma FinishAdvances(s: State, a: string, ok: bool)
    requires Inv(s) && a in s.inFlight && a in s.db.allocations
    ensures Advances(s, State(ScaleFinished(s.db, a, s.inFlight[a], ok).db, s.inFlight - {a}), a)
  {
    hide Inv, ScaleFinished, AllocationOk;
    InFlightFacts(s, a);
    FinishIsAtomic(s, a, ok);
  }

  /** Every step leaves an allocation's status alone or takes it along an edge of the lifecycle. */
  lemma StepAdvances(s: State, e: Event, a: string)
    requires Inv(s) && Allowed(s, e) && a in s.db.allocations
    ensures Advances(s, Step(s, e), a)
  {
    hide Inv, Advances, FootprintOf, DeallocateOutcome, ScaleOutcome, CreateFinished, DeleteFinished, ScaleBegun,
         ScaleFinished;
    if Named(e) != Some(a) {
      StepIsolates(s, e, a);
      FootprintRow(s, Step(s, e), a);
      RowDecides(s, Step(s, e), a);
    } else {
      match e
      case Deallocate(id) => DeallocateAdvances(s, id);
      case Scale(id, scale, fault) => ScaleAdvances(s, id, scale, fault);
      case RunCreate(id, unit, result) => CreateAdvances(s, id, unit, result.Successful?);
      case RunDelete(id, unit, result) => DeleteAdvances(s, id, unit, result.Successful?);
      case BeginScale(id, filter) => BeginAdvances(s, id, filter);
      case FinishScale(id, result) => FinishAdvances(s, id, result.Successful?);
    }
  }

  /**
   No way back: over any run, an allocation whose scale failed, whose creation failed, or whose
   deallocation has begun is never allocated or scaled again.
   */
  lemma {:induction false} LeavingIsForever(s: State, events: seq<Event>, a: string)
    requires Inv(s) && AllowedRun(s, events) && a in s.db.allocations && Leaving(s.db.allocations[a].status)
    ensures a in Run(s, events).db.allocations && Leaving(Run(s, events).db.allocations[a].status)
    decreases |events|
  {
    hide Inv, Step, Allowed;
    if events != [] {
      StepAdvances(s, events[0], a);
      StepKeepsInv(s, events[0]);
      LeavingIsForever(Step(s, events[0]), events[1..], a);
    }
  }

  // ---- Identity ----

  /** The first of the candidates that is given and not empty. */
  function FirstGiven(candidates: seq<Option<string>>, other: string): string {
    if candidates == [] then other
    else if candidates[0].Some? && candidates[0].value != "" then candidates[0].value
    else FirstGiven(candidates[1..], other)
  }

  /** The text the allocation id is made from: the first of the four places that gives one. */
  function GivenName(request: AllocationRequest, computeId: string): string {
    FirstGiven([request.allocationId, Tag(request, "allocation_id"), Tag(request, "deployment_id")], computeId)
  }

  lemma IdentitySources(request: AllocationRequest, computeId: string)
    ensures Identity(request, computeId).0 == Strip(GivenName(request, computeId))
    ensures Identity(request, computeId).1 == Strip(OrElse(request.loginUser, Identity(request, computeId).0))
  {
    hide Strip;
    var candidates := [request.allocationId, Tag(request, "allocation_id"), Tag(request, "deployment_id")];
    assert candidates[1..] == [candidates[1], candidates[2]] && candidates[1..][1..] == [candidates[2]];
    assert FirstGiven([], computeId) == computeId && candidates[1..][1..][1..] == [];
    assert FirstGiven(candidates[1..][1..], computeId) == OrElse(candidates[2], computeId);
    assert FirstGiven(candidates[1..], computeId) == OrElse(candidates[1], OrElse(candidates[2], computeId));
    assert GivenName(request, computeId) == FirstGiven(candidates, computeId);
  }

  /**
   Names are normal: no blank surrounds them, so a request that repeats them gets the same ones. The id
   is empty exactly when the place that names it gives nothing but blanks, which no check refuses; then
   the login user is empty too, and refused, unless the request gives one with more than blanks in it.
   */
  lemma NamesAreNormal(request: AllocationRequest, computeId: string)
    ensures var (id, login) := Identity(request, computeId);
            && Strip(id) == id && Strip(login) == login
            && (id == "" <==> AllSpace(GivenName(request, computeId)))
            && (id == "" && ValidLogin(login) ==> request.loginUser.Some? && !AllSpace(request.loginUser.value))
  {
    hide Strip, AllSpace, GivenName, Identity;
    IdentitySources(request, computeId);
    StripIdempotent(GivenName(request, computeId));
    StripIdempotent(OrElse(request.loginUser, Identity(request, computeId).0));
    StripEmpty(GivenName(request, computeId));
    StripEmpty(OrElse(request.loginUser, Identity(request, computeId).0));
    NothingIsSpace();
  }

  lemma NothingIsSpace()
    ensures AllSpace("")
  {
  }

  /** A request that names nothing: the allocation takes the id of the unit it gets. */
  predicate Anonymous(request: AllocationRequest) {
    request.allocationId.None? && "allocation_id" !in request.tags && "deployment_id" !in request.tags
  }

  /**
   An anonymous request is refused for its name exactly when an allocation was named after the unit it
   gets, and that unit then stays free. Rows are never deleted, so a name once used is used up: whatever
   became of its allocation, and in every later run.
   */
  lemma UnitNameIsUsedUp(s: State, events: seq<Event>, unit: string, request: AllocationRequest)
    requires Inv(s) && AllowedRun(s, events)
    requires Anonymous(request) && PickUnit(Run(s, events).db, request.filter) == Some(unit)
    ensures var t := Run(s, events);
            var outcome := AllocateOutcome(t.db, request, NoFault);
            && (outcome.1 == Refused(IdExists) <==> Strip(unit) in t.db.allocations)
            && (outcome.1 == Refused(IdExists) ==> outcome.0 == t.db)
            && (Strip(unit) in s.db.allocations ==> Strip(unit) in t.db.allocations)
  {
    hide Inv, Step, Allowed, Strip, ValidLogin, LoginActive, Allocations.Settled, FateOf, FreedUnit, Run, AllowedRun;
    var t := Run(s, events);
    RunKeepsInv(s, events);
    if Strip(unit) in s.db.allocations {
      RunEndures(s, events, Strip(unit));
    }
    assert Identity(request, unit).0 == Strip(unit);
    PickLeavesNoTrace(t, request.filter);
  }

  lemma PickLeavesNoTrace(s: State, filter: Filter)
    requires Inv(s) && PickUnit(s.db, filter).Some?
    ensures PickUnit(s.db, filter).value in s.db.units && FreedUnit(s.db, PickUnit(s.db, filter).value) == s.db
  {
    hide AllocationOk, AddressOk, InFlightOk, JobsOk, Exclusive, LoginsDistinct, ServersOk, CpusDisjoint, UnitOk;
    assert UnitOk(s, PickUnit(s.db, filter).value);
    FreedUnitIsUnchanged(s, PickUnit(s.db, filter).value);
  }

  /**
   A login user is lost with a failed request: the abandoned row is not DEALLOCATED and never changes
   again, so no later request for the same login user is ever accepted.
   */
  lemma AbandonedLoginIsLost(s: State, events: seq<Event>, a: string, request: AllocationRequest, plan: FaultPlan)
    requires Inv(s) && AllowedRun(s, events) && a in s.db.allocations
    requires Terminal(s.db.allocations[a]) && s.db.allocations[a].status == AllocationStatus.AllocationFail
    requires forall unit :: Identity(request, unit).1 == s.db.allocations[a].loginUser
    ensures var t := Run(s, events); AllocateOutcome(t.db, request, plan).1.Refused?
  {
    hide Inv, Step, Allowed, Identity, ValidLogin, AllocateOutcome;
    RunKeepsInv(s, events);
    RunEndures(s, events, a);
    AcceptedIffClaims(Run(s, events), request, plan);
  }
}
