/**
 A concrete run, from the empty database to a scale in progress. It shows that the states the guards
 are about are reached, and what the code does there when a guard is ignored.
 */
module Scenario {
  import opened Administration
  import opened Allocations
  import opened Collections
  import opened ComputeIds
  import opened CpuRange
  import opened Guards
  import opened JsRange
  import opened Options
  import opened Protocol
  import opened ProtocolAllocate
  import opened ProtocolJobs
  import opened ProtocolRuns
  import opened ProtocolScale
  import opened ServerSpecs
  import opened Tables
  import opened Text
  import opened Workers

  // ---- Reaching one state from another ----

  lemma {:induction false} RunThenStep(s: State, events: seq<Event>, e: Event)
    requires AllowedRun(s, events) && Allowed(Run(s, events), e)
    ensures AllowedRun(s, events + [e]) && Run(s, events + [e]) == Step(Run(s, events), e)
    decreases |events|
  {
    hide Allowed, Step;
    if events == [] {
      assert [e][1..] == [];
      assert events + [e] == [e];
    } else {
      assert (events + [e])[1..] == events[1..] + [e];
      RunThenStep(Step(s, events[0]), events[1..], e);
    }
  }

  lemma ReachNext(s: State, e: Event, t: State)
    requires Reachable(s) && Allowed(s, e) && Step(s, e) == t
    ensures Reachable(t)
  {
    hide Allowed, Step, AllowedRun, Run;
    var events :| AllowedRun(InitialState(), events) && Run(InitialState(), events) == s;
    RunThenStep(InitialState(), events, e);
  }

  // ---- The cast ----

  const IP := "10.0.0.1"
  const ID := "x"

  /** Two hosts with one unit each: two CPUs on the one, four on the other. */
  function Range(hostname: string): string {
    if hostname == "a" then RangeText(0, 1) else RangeText(0, 3)
  }

  function Request(hostname: string): InitRequest {
    InitRequest(hostname, "r", Some("z"), [UnitSpec(1, Range(hostname))])
  }

  function Cpus(hostname: string): int {
    if hostname == "a" then 2 else 4
  }

  function CpuText(hostname: string): string {
    var text := ToCpuSet(Range(hostname));
    if text.Ok? then text.value else ""
  }

  function UnitOn(hostname: string, status: UnitStatus, owner: Option<string>): ComputeUnit {
    ComputeUnit(hostname, 1, Range(hostname), Cpus(hostname), CpuText(hostname), status, owner)
  }

  function Id(hostname: string): string {
    ComputeId(hostname, 1)
  }

  const READY := Server(Ready, Healthy, "r", "z")
  const STARTING := Server(Initializing, Unknown, "r", "z")

  /** Both hosts ready, with these two units, one allocation and one address. */
  function Rows(a: ComputeUnit, b: ComputeUnit, row: Allocation, address: IpAddress,
      jobs: multiset<Command>): Database {
    Database(map["a" := READY, "b" := READY], map[Id("a") := a, Id("b") := b], map[ID := row], map[IP := address], jobs)
  }

  function PlacedRow(status: AllocationStatus): Allocation {
    Allocation(ID, IP, Some(Id("a")), Some("a"), status)
  }

  const TO_FOUR := ScaleRequest(4, None, None)

  // ---- Facts about the cast ----

  lemma RequestFacts(hostname: string)
    ensures var request := Request(hostname);
            && ValidUnits(request.specs)
            && InitUnits(request.specs) == [InitUnit(1, Range(hostname), CpuText(hostname), Cpus(hostname) as nat)]
  {
    hide CpuIdsForRange, ParseCpuRange, ToCpuSet, RangeText, CpusOf, JsCpus;
    RangeTextReadsBack(0, 1);
    RangeTextReadsBack(0, 3);
    var spec := UnitSpec(1, Range(hostname));
    assert Parses(spec);
    CpuSetRoundTrip(spec.cpuRange);
    assert SortSpecs([spec]) == [spec] by {
      assert [spec][1..] == [];
    }
  }

  lemma IdsDiffer()
    ensures Id("a") != Id("b")
  {
    hide ComputeId;
    ComputeIdCollision("a", 1, "b", 1);
  }

  /** Only the unit on this host has the wanted size, so it is the one picked. */
  lemma PicksOnly(d: Database, filter: Filter, hostname: string)
    requires d.IdsGenerated() && d.Eligible(filter, Id(hostname))
    requires forall c :: d.Eligible(filter, c) ==> c == Id(hostname)
    ensures PickUnit(d, filter) == Some(Id(hostname))
  {
    hide ComputeId, Database.IdsGenerated;
    var id := Id(hostname);
    assert UnitLeq(d.units[id], d.units[id]) by {
      UnitLeqIsTotalOrder();
    }
    FirstEligibleIsUnique(d, filter, id);
  }

  // ---- The run ----

  function WithPool(): State {
    State(Database(map[], map[], map[], map[IP := FREE_ADDRESS], multiset{}), map[])
  }

  lemma PoolIsFilled()
    ensures Reachable(WithPool())
  {
    hide Step, Allowed;
    assert AllowedRun(InitialState(), []) && Run(InitialState(), []) == InitialState();
    FirstStep();
    ReachNext(InitialState(), InsertAddresses([IP]), WithPool());
  }

  lemma FirstStep()
    ensures Allowed(InitialState(), InsertAddresses([IP])) && Step(InitialState(), InsertAddresses([IP])) == WithPool()
  {
    assert ToSet([IP]) == {IP};
  }

  function HostAStarting(): State {
    State(Database(map["a" := STARTING], map[], map[], map[IP := FREE_ADDRESS], multiset{ServerInit(Request("a"))}),
        map[])
  }

  function HostAReady(): State {
    State(Database(map["a" := READY], map[Id("a") := UnitOn("a", UnitStatus.Free, None)], map[],
        map[IP := FREE_ADDRESS],
                   multiset{}), map[])
  }

  function HostBStarting(): State {
    State(Database(map["a" := READY, "b" := STARTING], map[Id("a") := UnitOn("a", UnitStatus.Free, None)], map[],
                   map[IP := FREE_ADDRESS], multiset{ServerInit(Request("b"))}), map[])
  }

  function BothReady(): State {
    State(Database(map["a" := READY, "b" := READY],
                   map[Id("a") := UnitOn("a", UnitStatus.Free, None), Id("b") := UnitOn("b", UnitStatus.Free, None)],
                   map[], map[IP := FREE_ADDRESS], multiset{}), map[])
  }

  /** An init request for a host that is not known, and its job. */
  lemma HostComes(s: State, starting: State, ready: State, hostname: string)
    requires Reachable(s) && s.db.jobs == multiset{} && hostname !in s.db.servers
    requires !UnitsOn(s.db, hostname) && Id(hostname) !in s.db.units
    requires starting == s.(db := s.db.(servers := s.db.servers[hostname := STARTING],
             jobs := multiset{ServerInit(Request(hostname))}))
    requires ready == s.(db := s.db.(servers := s.db.servers[hostname := READY],
                                     units := s.db.units[Id(hostname) := UnitOn(hostname, UnitStatus.Free, None)]))
    ensures Reachable(ready)
  {
    hide Reachable, ValidUnits, InitUnits, Range, ToCpuSet, ComputeId;
    RequestFacts(hostname);
    var request := Request(hostname);
    ReachNext(s, InitServer(request), starting);
    var d := Taken(starting.db, ServerInit(request));
    assert d.jobs == multiset{};
    var unit := InitUnit(1, Range(hostname), CpuText(hostname), Cpus(hostname) as nat);
    assert InsertedUnits(d, hostname, [unit]) == InsertedUnits(d, hostname, []).InsertUnit(UnitRow(hostname, unit)) by {
      assert [unit][..0] == [];
    }
    assert !(exists c :: c in d.units && Database.SameSlot(d.units[c], UnitRow(hostname, unit)));
    assert s.db.servers[hostname := STARTING][hostname := READY] == s.db.servers[hostname := READY];
    ReachNext(starting, RunInit(request, Successful), ready);
  }

  lemma HostsCome()
    ensures Reachable(BothReady())
  {
    hide Reachable, Range, ToCpuSet, ComputeId;
    PoolIsFilled();
    IdsDiffer();
    HostComes(WithPool(), HostAStarting(), HostAReady(), "a");
    HostComes(HostAReady(), HostBStarting(), BothReady(), "b");
  }

  const NEW := AllocationRequest(Some(ID), Some(ID), Filter(None, None, Some(2)), map[])

  function Requested(): State {
    State(Rows(UnitOn("a", UnitStatus.Allocating, Some(ID)), UnitOn("b", UnitStatus.Free, None),
        PlacedRow(AllocationStatus.Allocating),
               IpAddress(IpStatus.Reserved, Some(ID), Some("a")), multiset{AllocationCreate(ID, Id("a"))}), map[])
  }

  function Settled(): State {
    State(Rows(UnitOn("a", UnitStatus.Allocated, Some(ID)), UnitOn("b", UnitStatus.Free, None),
        PlacedRow(AllocationStatus.Allocated),
               IpAddress(IpStatus.Allocated, Some(ID), Some("a")), multiset{}), map[])
  }

  function ScaleWaiting(): State {
    State(Rows(UnitOn("a", UnitStatus.Allocated, Some(ID)), UnitOn("b", UnitStatus.Free, None), PlacedRow(Scaling),
               IpAddress(IpStatus.Allocated, Some(ID), Some("a")),
                   multiset{AllocationScale(ID, ScaleFilter(TO_FOUR))}), map[])
  }

  /** The end of the run: the scale's playbook is running. */
  function ScaleRunning(): State {
    State(Rows(UnitOn("a", UnitStatus.Allocated, Some(ID)), UnitOn("b", UnitStatus.Allocating, None),
        PlacedRow(Scaling),
               IpAddress(IpStatus.Allocated, Some(ID), Some("a")), multiset{}),
          map[ID := ScaleJob(IP, Id("a"), "a", Id("b"), "b")])
  }

  lemma IdentityOfNew()
    ensures Identity(NEW, Id("a")) == (ID, ID) && ValidLogin(ID)
  {
    assert !IsSpace('x');
    assert |ID| == 1;
  }

  lemma OnlyAFits()
    ensures PickUnit(BothReady().db, NEW.filter) == Some(Id("a"))
  {
    hide ComputeId, Range, ToCpuSet;
    IdsDiffer();
    PicksOnly(BothReady().db, NEW.filter, "a");
  }

  lemma OnlyBFits()
    ensures PickUnit(Taken(ScaleWaiting().db, AllocationScale(ID, ScaleFilter(TO_FOUR))), ScaleFilter(TO_FOUR))
            == Some(Id("b"))
  {
    hide ComputeId, Range, ToCpuSet;
    IdsDiffer();
    PicksOnly(Taken(ScaleWaiting().db, AllocationScale(ID, ScaleFilter(TO_FOUR))), ScaleFilter(TO_FOUR), "b");
  }

  /** With no allocations and one free address the request passes its checks. */
  lemma NewPasses(d: Database)
    requires d.allocations == map[] && d.pool == map[IP := FREE_ADDRESS]
    ensures Admission(d, ID, ID, NoFault).None? && PickIp(d.pool) == Some(IP)
  {
    IdentityOfNew();
    hide ValidLogin;
    assert FreeIp(d.pool, IP);
    assert forall ip :: FreeIp(d.pool, ip) ==> ip == IP;
  }

  lemma NewIsAdmitted()
    ensures Admitted(BothReady().db, NEW, NoFault, Id("a"), ID, PlacedRow(AllocationStatus.Allocating))
  {
    hide ComputeId, Range, ToCpuSet, Identity, ValidLogin, Database.Eligible, Admission;
    OnlyAFits();
    IdsDiffer();
    IdentityOfNew();
    NewPasses(BothReady().db);
  }

  lemma AllocationComes()
    ensures Reachable(Requested())
  {
    hide ComputeId, Range, ToCpuSet, Reachable, Admitted, AdmittedOn, Inv, AllocateOutcome, AllocateOn,
         Allocations.Settled, FreeUnitOf;
    HostsCome();
    NewIsAdmitted();
    IdsDiffer();
    var row := PlacedRow(AllocationStatus.Allocating);
    ReachableIsValid(BothReady());
    AdmittedOutcome(BothReady(), NEW, NoFault, Id("a"), ID, row);
    ReachNext(BothReady(), Allocate(NEW, NoFault), Requested());
  }

  lemma AllocationSettles()
    ensures Reachable(Settled())
  {
    hide ComputeId, Range, ToCpuSet, Reachable, Inv, CreateFinished;
    AllocationComes();
    IdsDiffer();
    var s := Requested();
    ReachableIsValid(s);
    CreateIsAtomic(s, ID, Id("a"), true);
    ReachNext(s, RunCreate(ID, Id("a"), Successful), Settled());
  }

  lemma ScaleComes()
    ensures Reachable(ScaleWaiting())
  {
    hide ComputeId, Range, ToCpuSet, Reachable, Inv, ScaleOutcome;
    AllocationSettles();
    IdsDiffer();
    var s := Settled();
    ReachableIsValid(s);
    ScaleIsAtomic(s, ID, TO_FOUR);
    ReachNext(s, Scale(ID, TO_FOUR, Repository.Works), ScaleWaiting());
  }

  lemma ScaleStarts()
    ensures Reachable(ScaleRunning())
  {
    hide ComputeId, Range, ToCpuSet, Reachable, Inv, BegunState;
    ScaleComes();
    ScaleBegins();
    BeginStep(ScaleWaiting(), ID, ScaleFilter(TO_FOUR));
    ReachNext(ScaleWaiting(), BeginScale(ID, ScaleFilter(TO_FOUR)), ScaleRunning());
  }

  lemma ScaleBegins()
    requires Reachable(ScaleWaiting())
    ensures BegunState(ScaleWaiting(), ID, ScaleFilter(TO_FOUR)) == ScaleRunning()
  {
    hide ComputeId, Range, ToCpuSet, Reachable, Inv, BegunState, Database.Eligible;
    IdsDiffer();
    ReachableIsValid(ScaleWaiting());
    OnlyBFits();
    BeginIsAtomic(ScaleWaiting(), ID, ScaleFilter(TO_FOUR));
  }

  /**
   In this reachable state each of the three requests is accepted by the code, and each breaks the
   invariant: deallocating the scaling allocation, decommissioning the host of its target, and
   initialising its own host again.
   */
  lemma GuardsAreNeeded()
    ensures var s := ScaleRunning();
            var d := s.db;
            && Reachable(s) && Inv(s)
            && DeallocateOutcome(d, ID).1 == DeleteQueued && !Inv(s.(db := DeallocateOutcome(d, ID).0))
            && DecommissionOutcome(d, "b").1 == Queued && !Inv(s.(db := DecommissionOutcome(d, "b").0))
            && ValidUnits(Request("a").specs) && !Inv(s.(db := InitServerOutcome(d, Request("a")).db))
  {
    hide ComputeId, Range, ToCpuSet, Reachable, Inv, DeallocateOutcome, DecommissionOutcome, InitServerOutcome,
         ValidUnits;
    ScaleStarts();
    IdsDiffer();
    RequestFacts("a");
    var s := ScaleRunning();
    ReachableIsValid(s);
    DeallocateGuardIsExact(s, ID);
    assert CanDeallocate(s, ID, Id("a"));
    DeallocateIsAtomic(s, ID, Id("a"));
    assert s.inFlight[ID].targetHost == "b";
    TargetHostAccepted(s);
    DecommissionGuardIsExact(s, "b");
    assert s.db.units[Id("a")].hostname == "a";
    InitGuardIsExact(s, Request("a"));
  }

  lemma TargetHostAccepted(s: State)
    requires s == ScaleRunning()
    ensures DecommissionOutcome(s.db, "b").1 == Queued && !ActiveOn(s.db, "b")
  {
    hide ComputeId, Range, ToCpuSet;
  }

  // ---- A lock overtaken by a decommission ----

  function Leaving(): State {
    State(Database(map["a" := READY.(status := Decommissioning), "b" := READY], BothReady().db.units, map[],
                   map[IP := FREE_ADDRESS], multiset{ServerDecomm("a")}), map[])
  }

  lemma LeavingStep()
    ensures Allowed(BothReady(), Decommission("a")) && Step(BothReady(), Decommission("a")) == Leaving()
  {
    hide ComputeId, Range, ToCpuSet;
    var d := BothReady().db;
    assert d.servers["a" := READY.(status := Decommissioning)] == Leaving().db.servers;
    assert d.jobs + multiset{ServerDecomm("a")} == Leaving().db.jobs;
    assert d.WithServerStatus("a", Decommissioning).servers == Leaving().db.servers;
  }

  lemma HostLeaves()
    ensures Reachable(Leaving())
  {
    hide Reachable, BothReady, Leaving, Step, Allowed;
    HostsCome();
    LeavingStep();
    ReachNext(BothReady(), Decommission("a"), Leaving());
  }

  /** What the two hosts' tables look like when the request carries on with the unit it had selected. */
  function PlacedLate(): Database {
    var row := PlacedRow(AllocationStatus.Allocating);
    AllocatedDb(Leaving().db, ID, row, Id("a"))
  }

  lemma LateIsAdmitted()
    ensures AdmittedOn(Leaving().db, NEW, NoFault, Id("a"), ID, PlacedRow(AllocationStatus.Allocating))
    ensures FreeUnitOf(Leaving().db, Id("a"))
  {
    hide ComputeId, Range, ToCpuSet, Identity, ValidLogin, Admission;
    IdentityOfNew();
    IdsDiffer();
    NewPasses(Leaving().db);
  }

  /** The decommission job, successful, on these tables; then the create job. */
  lemma PlacementIsLost()
    ensures var gone := DecommFinished(Taken(PlacedLate(), ServerDecomm("a")), "a", Successful);
            && !gone.raised && Id("a") !in gone.db.units && ID in gone.db.allocations
            && gone.db.allocations[ID] == PlacedRow(AllocationStatus.Allocating).(computeId := None)
            && CreateFinished(Taken(gone.db, AllocationCreate(ID, Id("a"))), ID, Id("a"), true).raised
  {
    hide ComputeId, Range, ToCpuSet;
    IdsDiffer();
  }

  lemma LateRequestIsAccepted()
    ensures AllocateOn(Leaving().db, NEW, NoFault, Id("a")) == (PlacedLate(), AllocateReply.Accepted(ID))
    ensures !Inv(Leaving().(db := PlacedLate()))
  {
    hide ComputeId, Range, ToCpuSet, Reachable, Inv, AllocateOn, AdmittedOn, Allocations.Settled, AllocatedDb,
         FreeUnitOf;
    HostLeaves();
    ReachableIsValid(Leaving());
    LateIsAdmitted();
    AdmittedOnOutcome(Leaving(), NEW, NoFault, Id("a"), ID, PlacedRow(AllocationStatus.Allocating));
    AllocateOnIsExact(Leaving(), NEW, NoFault, Id("a"));
    PlacedJobs();
  }

  /**
   A request selects a unit, its host is told to leave, and the request goes on: it is accepted, the
   state is not valid, the decommission job takes the unit from under the allocation, and the job that
   would finish the allocation raises. The allocation stays ALLOCATING without a unit.
   */
  lemma OvertakenLockLosesPlacement()
    ensures Reachable(BothReady()) && PickUnit(BothReady().db, NEW.filter) == Some(Id("a"))
    ensures Allowed(BothReady(), Decommission("a")) && Step(BothReady(), Decommission("a")) == Leaving()
    ensures Id("a") in Leaving().db.units
    ensures AllocateOn(Leaving().db, NEW, NoFault, Id("a")) == (PlacedLate(), AllocateReply.Accepted(ID))
    ensures !Inv(Leaving().(db := PlacedLate()))
    ensures var gone := DecommFinished(Taken(PlacedLate(), ServerDecomm("a")), "a", Successful);
            && ServerDecomm("a") in PlacedLate().jobs && !gone.raised && Id("a") !in gone.db.units
            && ID in gone.db.allocations && gone.db.allocations[ID].computeId.None?
            && gone.db.allocations[ID].status == AllocationStatus.Allocating
            && CreateFinished(Taken(gone.db, AllocationCreate(ID, Id("a"))), ID, Id("a"), true).raised
  {
    hide ComputeId, Reachable, Inv, AllocateOn, DecommFinished, BothReady, Leaving, PlacedLate, Step, Allowed,
         CreateFinished;
    HostsCome();
    OnlyAFits();
    LeavingStep();
    LateRequestIsAccepted();
    PlacementIsLost();
    PlacedJobs();
  }

  lemma PlacedJobs()
    ensures ServerDecomm("a") in PlacedLate().jobs && Id("a") in Leaving().db.units
    ensures Leaving().db.units[Id("a")].hostname == "a"
  {
    hide ComputeId, Range, ToCpuSet;
    IdsDiffer();
  }
}
