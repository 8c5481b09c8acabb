/** Which login users there are: over every run only proper ones, and which requests are refused for theirs. */
module LoginRuns {
  import opened Administration
  import opened Allocations
  import opened LoginNames
  import opened Protocol
  import opened ProtocolAdmin
  import opened ProtocolJobs
  import opened ProtocolLocal
  import opened ProtocolRuns
  import opened Tables
  import opened Lifecycle

  predicate LoginsProper(d: Database) {
    forall a :: a in d.allocations ==> ProperLogin(d.allocations[a].loginUser)
  }

  /** A step that names an unknown allocation does nothing. */
  lemma UnknownNameDoesNothing(s: State, e: Event)
    requires Inv(s) && Allowed(s, e) && Named(e).Some? && Named(e).value !in s.db.allocations
    ensures Step(s, e) == s
  {
    hide AllocationOk, UnitOk, AddressOk, ServersOk, LoginsDistinct, CpusDisjoint, Exclusive;
    match e
    case Deallocate(id) =>
    case Scale(id, scale, fault) =>
    case RunCreate(id, unit, _) =>
      JobIsOk(s, AllocationCreate(id, unit));
      assert false;
    case RunDelete(id, unit, _) =>
      JobIsOk(s, AllocationDelete(id, unit));
      assert false;
    case BeginScale(id, filter) =>
      JobIsOk(s, AllocationScale(id, filter));
      assert false;
    case FinishScale(id, _) =>
      assert false;
  }

  /** No step but an allocation request adds a row. */
  lemma OnlyAllocateAddsRows(s: State, e: Event)
    requires Inv(s) && Allowed(s, e) && !e.Allocate?
    ensures Step(s, e).db.allocations.Keys == s.db.allocations.Keys
  {
    hide Inv, Step, Allowed, Quiet, LocalTo;
    if Named(e).None? {
      AdminStepKeepsRows(s, e);
    } else if Named(e).value !in s.db.allocations {
      UnknownNameDoesNothing(s, e);
    } else {
      StepKeepsInv(s, e);
      var t := Step(s, e);
      if Quiet(s, t) {
        QuietRows(s, t);
      } else if t != s {
        LocalKeys(s, t, Named(e).value);
      }
    }
  }

  lemma LocalKeys(s: State, t: State, a: string)
    requires LocalTo(s, t, a)
    ensures t.db.allocations.Keys == s.db.allocations.Keys + {a}
  {
  }

  lemma AdminStepKeepsRows(s: State, e: Event)
    requires Inv(s) && Allowed(s, e) && Named(e).None? && !e.Allocate?
    ensures Step(s, e).db.allocations == s.db.allocations
  {
    hide Inv, Quiet, InitServerOutcome, DecommissionOutcome, DeleteServerOutcome, InsertAddressesOutcome,
         DeleteAddressOutcome, Probed, InitFinished, DecommFinished;
    match e {
      case InitServer(init) => InitServerKeepsInv(s, init);
      case Decommission(hostname) => DecommissionKeepsInv(s, hostname);
      case DeleteServer(hostname) => DeleteServerKeepsInv(s, hostname);
      case InsertAddresses(addresses) => InsertAddressesKeepsInv(s, addresses);
      case DeleteAddress(ip) => DeleteAddressKeepsInv(s, ip);
      case Probe(hostname, health) => ProbeKeepsInv(s, hostname, health);
      case RunInit(init, result) => RunInitKeepsInv(s, init, result);
      case RunDecomm(hostname, result) => RunDecommKeepsInv(s, hostname, result);
    }
    var t := Step(s, e);
    if t != s {
      QuietRows(s, t);
    }
  }

  // ---- Over runs ----

  /** The row an allocation request adds, accepted or abandoned, has a proper login user. */
  lemma AllocateKeepsLoginsProper(d: Database, request: AllocationRequest, plan: FaultPlan)
    requires LoginsProper(d)
    ensures LoginsProper(AllocateOutcome(d, request, plan).0)
  {
    hide ProperLogin, ValidLogin, Identity, FateOf, Database.AcceptsAllocation, LoginActive, Settled;
    var pick := PickUnit(d, request.filter);
    if pick.Some? {
      var (id, login) := Identity(request, pick.value);
      ValidLoginIsProper(login);
      if Admission(d, id, login, plan).None? {
        var row := NewRow(login, PickIp(d.pool).value, pick.value, d.units[pick.value].hostname);
        SettledRows(d, id, row, pick.value, FateOf(plan, d.AcceptsAllocation(id, row)));
      }
    }
  }

  lemma SettledRows(d: Database, id: string, row: Allocation, unit: string, fate: Fate)
    requires unit in d.units && row.ipAddress in d.pool
    ensures var e := Settled(d, id, row, unit, fate);
            forall a :: a in e.allocations ==>
              if a == id && (a !in d.allocations || e.allocations[a] != d.allocations[a])
              then e.allocations[a].loginUser == row.loginUser
              else a in d.allocations && e.allocations[a] == d.allocations[a]
  {
  }

  lemma StepKeepsLoginsProper(s: State, e: Event)
    requires Inv(s) && Allowed(s, e) && LoginsProper(s.db)
    ensures LoginsProper(Step(s, e).db)
  {
    hide Inv, ProperLogin, AllocateOutcome;
    if e.Allocate? {
      AllocateKeepsLoginsProper(s.db, e.request, e.plan);
    } else {
      hide Step, Allowed;
      OnlyAllocateAddsRows(s, e);
      forall a | a in Step(s, e).db.allocations ensures ProperLogin(Step(s, e).db.allocations[a].loginUser) {
        StepEndures(s, e, a);
      }
    }
  }

  lemma {:induction false} RunKeepsLoginsProper(s: State, events: seq<Event>)
    requires Inv(s) && AllowedRun(s, events) && LoginsProper(s.db)
    ensures LoginsProper(Run(s, events).db)
    decreases |events|
  {
    hide Inv, Step, Allowed, LoginsProper;
    if events != [] {
      StepKeepsInv(s, events[0]);
      StepKeepsLoginsProper(s, events[0]);
      RunKeepsLoginsProper(Step(s, events[0]), events[1..]);
    }
  }

  /**
   In every reachable state each allocation's login user has between 1 and 32 characters, all of them
   lower-case letters, digits, dashes or underscores and the first a letter or a digit, and is neither
   the name of a system account nor one that starts like those of systemd.
   */
  lemma ReachableLoginsAreProper(s: State, a: string)
    requires Reachable(s) && a in s.db.allocations
    ensures ProperLogin(s.db.allocations[a].loginUser)
  {
    hide Inv, Step, Allowed, Run, ProperLogin;
    var events :| AllowedRun(InitialState(), events) && Run(InitialState(), events) == s;
    InitialStateIsValid();
    RunKeepsLoginsProper(InitialState(), events);
  }

  /**
   A request is refused for its login user exactly when a unit was free for it, its id is new, and the
   login user is not a proper one; it then changes nothing.
   */
  lemma RefusedForLogin(s: State, request: AllocationRequest, plan: FaultPlan)
    requires Inv(s)
    ensures var (e, reply) := AllocateOutcome(s.db, request, plan);
            && (reply == Refused(LoginInvalid) <==>
                  && PickUnit(s.db, request.filter).Some? && !plan.Hits(FindById)
                  && var (id, login) := Identity(request, PickUnit(s.db, request.filter).value);
                  id !in s.db.allocations && !ProperLogin(login))
            && (reply == Refused(LoginInvalid) ==> e == s.db)
  {
    hide Inv, ProperLogin, ValidLogin, Identity, Settled, FateOf, Database.AcceptsAllocation, LoginActive, FreedUnit;
    var pick := PickUnit(s.db, request.filter);
    if pick.Some? {
      var (id, login) := Identity(request, pick.value);
      ValidLoginIsProper(login);
      PickLeavesNoTrace(s, request.filter);
    }
  }
}
