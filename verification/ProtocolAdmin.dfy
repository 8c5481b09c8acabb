/** The steps on servers and on the IP pool: they reach only free units, free addresses and server rows. */
module ProtocolAdmin {
  import opened Administration
  import opened Collections
  import opened CpuRange
  import opened Options
  import opened Protocol
  import opened ProtocolJobs
  import opened ProtocolLocal
  import opened ServerSpecs
  import opened Tables
  import opened Workers

  // ---- The frame of these steps ----

  /** Units that are in use stay as they are; the others may go, and new ones are free. */
  ghost predicate UnitsQuiet(s: State, t: State) {
    && (forall c :: c in s.db.units && s.db.units[c].status != UnitStatus.Free ==> c in t.db.units)
    && (forall c :: c in t.db.units && c in s.db.units ==> t.db.units[c] == s.db.units[c])
    && (forall c :: c in t.db.units && c !in s.db.units ==>
          && t.db.units[c].status == UnitStatus.Free && t.db.units[c].allocationId.None?
          && c == ComputeIds.ComputeId(t.db.units[c].hostname, t.db.units[c].ordinal))
  }

  /** Every unit's host is known, and still ready if the unit is in use. */
  ghost predicate HostsQuiet(t: State) {
    forall c :: c in t.db.units ==>
      && t.db.units[c].hostname in t.db.servers
      && (t.db.units[c].status != UnitStatus.Free ==> t.db.servers[t.db.units[c].hostname].status == Ready)
  }

  ghost predicate PoolQuiet(s: State, t: State) {
    && (forall ip :: ip in s.db.pool && s.db.pool[ip] != FREE_ADDRESS ==>
             ip in t.db.pool && t.db.pool[ip] == s.db.pool[ip])
    && (forall ip :: ip in t.db.pool && t.db.pool[ip] != FREE_ADDRESS ==>
             ip in s.db.pool && t.db.pool[ip] == s.db.pool[ip])
  }

  ghost predicate JobsQuiet(s: State, t: State) {
    && (forall job :: Concerns(job).Some? ==> t.db.jobs[job] == s.db.jobs[job])
    && (forall job :: job in t.db.jobs && Concerns(job).None? ==> JobOk(t, job) && t.db.jobs[job] == 1)
    && (forall x, y :: x in t.db.jobs && y in t.db.jobs && Concerns(x).None? && Rival(x, y) ==> x == y)
  }

  ghost predicate Quiet(s: State, t: State) {
    && t.db.allocations == s.db.allocations && t.inFlight == s.inFlight
    && UnitsQuiet(s, t) && HostsQuiet(t) && PoolQuiet(s, t) && JobsQuiet(s, t)
  }

  lemma QuietAllocation(s: State, t: State, a: string)
    requires Quiet(s, t) && a in s.db.allocations && AllocationOk(s, a)
    ensures AllocationOk(t, a)
  {
    hide HostsQuiet;
    if AwaitsScale(s, a) {
      var filter :| AllocationScale(a, filter) in s.db.jobs;
      assert Concerns(AllocationScale(a, filter)).Some?;
      assert AllocationScale(a, filter) in t.db.jobs;
    }
    var row := s.db.allocations[a];
    if row.computeId.Some? {
      assert Concerns(AllocationCreate(a, row.computeId.value)).Some?;
      assert Concerns(AllocationDelete(a, row.computeId.value)).Some?;
    }
  }

  lemma QuietUnit(s: State, t: State, c: string)
    requires Quiet(s, t) && c in t.db.units && (c in s.db.units ==> UnitOk(s, c))
    ensures UnitOk(t, c)
  {
    hide PoolQuiet, JobsQuiet;
    if t.db.units[c].status != UnitStatus.Free {
      var a :| Holds(s, a, c) || Targets(s, a, c);
      assert Holds(t, a, c) || Targets(t, a, c);
    }
  }

  lemma QuietInFlight(s: State, t: State, a: string)
    requires Quiet(s, t) && a in s.inFlight && InFlightOk(s, a)
    ensures InFlightOk(t, a)
  {
    hide HostsQuiet, PoolQuiet;
    forall filter ensures AllocationScale(a, filter) in t.db.jobs <==> AllocationScale(a, filter) in s.db.jobs {
      assert Concerns(AllocationScale(a, filter)).Some?;
    }
  }

  lemma QuietJobs(s: State, t: State)
    requires Quiet(s, t) && JobsOk(s)
    ensures JobsOk(t)
  {
    hide HostsQuiet, PoolQuiet, UnitsQuiet, ValidUnits;
    forall job | job in t.db.jobs ensures JobOk(t, job) && t.db.jobs[job] == 1 {
      if Concerns(job).Some? {
        assert job in s.db.jobs;
        JobIsOk(s, job);
      }
    }
    forall x, y | x in t.db.jobs && y in t.db.jobs && Rival(x, y) ensures x == y {
      if Concerns(x).Some? {
        assert x in s.db.jobs && y in s.db.jobs;
      }
    }
  }

  lemma QuietKeepsInv(s: State, t: State)
    requires Inv(s) && Quiet(s, t) && ServersOk(t) && CpusDisjoint(t.db.units)
    ensures Inv(t)
  {
    hide AllocationOk, UnitOk, InFlightOk, JobsOk, JobsQuiet, HostsQuiet, UnitsQuiet, ServersOk, CpusDisjoint;
    forall a | a in t.db.allocations ensures AllocationOk(t, a) {
      QuietAllocation(s, t, a);
    }
    forall c | c in t.db.units ensures UnitOk(t, c) {
      QuietUnit(s, t, c);
    }
    forall ip | ip in t.db.pool ensures AddressOk(t, ip) {
      assert ip in s.db.pool ==> AddressOk(s, ip);
    }
    forall a | a in t.inFlight ensures InFlightOk(t, a) {
      QuietInFlight(s, t, a);
    }
    QuietJobs(s, t);
    assert forall a, c :: Holds(t, a, c) == Holds(s, a, c);
    assert forall a, c :: Targets(t, a, c) == Targets(s, a, c);
  }

  // ---- Server rows only ----

  /** Only the row of one host and its server jobs differ. */
  ghost predicate ServerStep(s: State, t: State, hostname: string) {
    && t.db.allocations == s.db.allocations && t.inFlight == s.inFlight
    && t.db.units == s.db.units && t.db.pool == s.db.pool
    && hostname in t.db.servers
    && (forall h :: h != hostname ==> (h in t.db.servers <==> h in s.db.servers))
    && (forall h :: h in s.db.servers && h != hostname ==> t.db.servers[h].status == s.db.servers[h].status)
    && (hostname in s.db.servers && t.db.servers[hostname].status != s.db.servers[hostname].status ==>
             Idle(s, hostname))
    && (Bare(t.db.servers[hostname].status) ==> !UnitsOn(s.db, hostname))
  }

  /** No unit of the host is in use. */
  ghost predicate Idle(s: State, hostname: string) {
    forall c :: c in s.db.units && s.db.units[c].hostname == hostname ==> s.db.units[c].status == UnitStatus.Free
  }

  lemma ServerStepKeepsInv(s: State, t: State, hostname: string)
    requires Inv(s) && ServerStep(s, t, hostname) && JobsQuiet(s, t)
    ensures Inv(t) && Quiet(s, t)
  {
    hide AllocationOk, InFlightOk, JobsOk, JobsQuiet, CpusDisjoint, AddressOk;
    forall c | c in t.db.units
      ensures t.db.units[c].hostname in t.db.servers
      ensures t.db.units[c].status != UnitStatus.Free ==> t.db.servers[t.db.units[c].hostname].status == Ready
      ensures !Bare(t.db.servers[t.db.units[c].hostname].status)
    {
      assert UnitOk(s, c);
    }
    QuietKeepsInv(s, t);
  }

  /** The server jobs of other hosts are untouched; those of this host are as listed. */
  lemma ServerJobsQuiet(s: State, t: State, hostname: string)
    requires JobsOk(s)
    requires forall h :: h in s.db.servers && h != hostname ==>
             h in t.db.servers && t.db.servers[h].status == s.db.servers[h].status
    requires forall job :: HostOf(job) != Some(hostname) ==> t.db.jobs[job] == s.db.jobs[job]
    requires forall job :: job in t.db.jobs && HostOf(job) == Some(hostname) ==> JobOk(t, job) && t.db.jobs[job] == 1
    requires forall x, y :: x in t.db.jobs && y in t.db.jobs && HostOf(x) == Some(hostname) && Rival(x, y) ==> x == y
    ensures JobsQuiet(s, t)
  {
    hide ValidUnits;
    assert forall job :: Concerns(job).Some? ==> HostOf(job) != Some(hostname);
    forall job | job in t.db.jobs && Concerns(job).None? ensures JobOk(t, job) && t.db.jobs[job] == 1 {
      if HostOf(job) != Some(hostname) {
        assert job in s.db.jobs;
        JobIsOk(s, job);
      }
    }
    forall x, y | x in t.db.jobs && y in t.db.jobs && Concerns(x).None? && Rival(x, y) ensures x == y {
      if HostOf(x) != Some(hostname) {
        assert HostOf(y) == HostOf(x);
        assert x in s.db.jobs && y in s.db.jobs;
      }
    }
  }

  function HostOf(job: Command): Option<string> {
    match job
    case ServerInit(r) => Some(r.hostname)
    case ServerDecomm(h) => Some(h)
    case _ => None
  }

  lemma NoServerJob(s: State, hostname: string)
    requires !ServerJobFor(s.db, hostname)
    ensures forall job :: job in s.db.jobs ==> HostOf(job) != Some(hostname)
  {
  }

  lemma InitServerKeepsInv(s: State, init: InitRequest)
    requires Inv(s) && ValidUnits(init.specs) && InitGuard(s, init.hostname)
    ensures var t := s.(db := InitServerOutcome(s.db, init).db); Inv(t) && (t == s || Quiet(s, t))
  {
    hide Quiet, AllocationOk, InFlightOk, CpusDisjoint, AddressOk, UnitOk, ValidUnits, UnitsOn, ServersOk, JobsQuiet;
    var t := s.(db := InitServerOutcome(s.db, init).db);
    if init.zone.Some? {
      NoServerJob(s, init.hostname);
      NoUnitsIsIdle(s, init.hostname);
      assert forall job :: job in t.db.jobs && HostOf(job) == Some(init.hostname) ==> job == ServerInit(init);
      ServerJobsQuiet(s, t, init.hostname);
      ServerStepKeepsInv(s, t, init.hostname);
    }
  }

  lemma NoUnitsIsIdle(s: State, hostname: string)
    requires !UnitsOn(s.db, hostname)
    ensures Idle(s, hostname)
  {
  }

  /** A unit in use shows on its host: an allocation is placed there, or a running scale aims there. */
  lemma InUseShows(s: State, c: string)
    requires Inv(s) && c in s.db.units && s.db.units[c].status != UnitStatus.Free
    ensures ActiveOn(s.db, s.db.units[c].hostname) || TargetOn(s, s.db.units[c].hostname)
    ensures s.db.units[c].hostname in s.db.servers && s.db.servers[s.db.units[c].hostname].status == Ready
  {
    hide JobsOk, CpusDisjoint, AddressOk, ServersOk, Exclusive, LoginsDistinct, AwaitsScale;
    assert UnitOk(s, c);
    var a :| Holds(s, a, c) || Targets(s, a, c);
    if Holds(s, a, c) {
      assert AllocationOk(s, a);
    } else {
      assert InFlightOk(s, a);
    }
  }

  lemma UnplacedIsIdle(s: State, hostname: string)
    requires Inv(s) && !ActiveOn(s.db, hostname) && !TargetOn(s, hostname)
    ensures Idle(s, hostname)
  {
    hide Inv, ActiveOn, TargetOn;
    forall c | c in s.db.units && s.db.units[c].status != UnitStatus.Free ensures s.db.units[c].hostname != hostname {
      InUseShows(s, c);
    }
  }

  lemma NotReadyIsIdle(s: State, hostname: string)
    requires Inv(s) && hostname in s.db.servers && s.db.servers[hostname].status != Ready
    ensures Idle(s, hostname)
  {
    hide Inv, ActiveOn, TargetOn;
    forall c | c in s.db.units && s.db.units[c].status != UnitStatus.Free ensures s.db.units[c].hostname != hostname {
      InUseShows(s, c);
    }
  }

  lemma DecommissionKeepsInv(s: State, hostname: string)
    requires Inv(s) && DecommissionGuard(s, hostname)
    ensures var t := s.(db := DecommissionOutcome(s.db, hostname).0); Inv(t) && (t == s || Quiet(s, t))
  {
    hide Quiet, AllocationOk, InFlightOk, CpusDisjoint, AddressOk, UnitOk, ValidUnits, UnitsOn, ServersOk, JobsQuiet,
         TargetOn, ActiveOn;
    var t := s.(db := DecommissionOutcome(s.db, hostname).0);
    if hostname in s.db.servers && !ActiveOn(s.db, hostname) {
      NoServerJob(s, hostname);
      UnplacedIsIdle(s, hostname);
      assert forall job :: job in t.db.jobs && HostOf(job) == Some(hostname) ==> job == ServerDecomm(hostname);
      ServerJobsQuiet(s, t, hostname);
      ServerStepKeepsInv(s, t, hostname);
    }
  }

  lemma ProbeKeepsInv(s: State, hostname: string, health: HealthStatus)
    requires Inv(s)
    ensures var t := s.(db := Probed(s.db, hostname, health)); Inv(t) && (t == s || Quiet(s, t))
  {
    hide Quiet, AllocationOk, InFlightOk, CpusDisjoint, AddressOk, ValidUnits, JobsQuiet;
    var t := s.(db := Probed(s.db, hostname, health));
    if hostname in s.db.servers {
      forall job | job in t.db.jobs && HostOf(job) == Some(hostname) ensures JobOk(t, job) && t.db.jobs[job] == 1 {
        JobIsOk(s, job);
      }
      ServerJobsQuiet(s, t, hostname);
      assert Bare(t.db.servers[hostname].status) ==> !UnitsOn(s.db, hostname);
      ServerStepKeepsInv(s, t, hostname);
    }
  }

  /** Whatever a health check cycle does to the servers' health, the protocol does not notice. */
  lemma HealthKeepsInv(s: State, servers: map<string, Server>)
    requires Inv(s) && servers.Keys == s.db.servers.Keys
    requires forall h :: h in servers ==> servers[h] == s.db.servers[h].(health := servers[h].health)
    ensures var t := s.(db := s.db.(servers := servers)); Inv(t) && Quiet(s, t)
  {
    hide AllocationOk, InFlightOk, CpusDisjoint, AddressOk, ValidUnits, JobsOk, Exclusive, LoginsDistinct;
    var t := s.(db := s.db.(servers := servers));
    forall job | job in s.db.jobs ensures JobOk(t, job) && s.db.jobs[job] == 1 {
      JobIsOk(s, job);
      OneOfEach(s, job);
    }
    RivalsStay(s, t);
    assert HostsQuiet(t) by {
      assert forall c :: c in s.db.units ==> UnitOk(s, c);
    }
    QuietKeepsInv(s, t);
  }

  lemma OneOfEach(s: State, job: Command)
    requires JobsOk(s) && job in s.db.jobs
    ensures s.db.jobs[job] == 1
  {
    hide JobOk;
  }

  lemma RivalsStay(s: State, t: State)
    requires JobsOk(s) && t.db.jobs == s.db.jobs
    ensures forall x, y :: x in t.db.jobs && y in t.db.jobs && Rival(x, y) ==> x == y
  {
    hide JobOk;
  }

  // ---- Rows that go ----

  /** Deleting the units of an idle host nulls no placement. */
  lemma IdleUnitsGoQuietly(s: State, hostname: string)
    requires Inv(s) && Idle(s, hostname)
    ensures s.db.WithoutUnits(hostname).allocations == s.db.allocations
  {
    hide JobsOk, CpusDisjoint, AddressOk, ServersOk, Exclusive, LoginsDistinct, AwaitsScale, UnitOk, InFlightOk;
    var after := s.db.WithoutUnits(hostname);
    forall a | a in s.db.allocations ensures after.allocations[a] == s.db.allocations[a] {
      assert AllocationOk(s, a);
    }
  }

  /** Nothing refers to an idle host. */
  lemma IdleHostUnnamed(s: State, hostname: string)
    requires Inv(s) && Idle(s, hostname)
    ensures forall a :: a in s.db.allocations ==> s.db.allocations[a].currentHost != Some(hostname)
    ensures forall ip :: ip in s.db.pool ==> s.db.pool[ip].currentHost != Some(hostname)
  {
    hide JobsOk, CpusDisjoint, ServersOk, Exclusive, LoginsDistinct, AwaitsScale, UnitOk, InFlightOk;
    forall a | a in s.db.allocations ensures s.db.allocations[a].currentHost != Some(hostname) {
      assert AllocationOk(s, a);
    }
    forall ip | ip in s.db.pool ensures s.db.pool[ip].currentHost != Some(hostname) {
      assert AddressOk(s, ip);
      if s.db.pool[ip].status != IpStatus.Free {
        assert AllocationOk(s, s.db.pool[ip].allocationId.value);
      }
    }
  }

  /** The cascade of a server delete reaches no allocation and no address. */
  lemma CascadeIsHarmless(s: State, hostname: string)
    requires Inv(s) && Idle(s, hostname)
    ensures var after := s.db.WithoutServer(hostname);
            && after.allocations == s.db.allocations && after.pool == s.db.pool && after.jobs == s.db.jobs
            && after.servers == s.db.servers - {hostname}
            && after.units == s.db.WithoutUnits(hostname).units
  {
    hide Inv, Idle;
    IdleUnitsGoQuietly(s, hostname);
    IdleHostUnnamed(s, hostname);
  }

  lemma RemainingUnits(d: Database, hostname: string)
    ensures var rest := d.WithoutUnits(hostname).units;
            forall c :: c in rest <==> c in d.units && d.units[c].hostname != hostname
    ensures var rest := d.WithoutUnits(hostname).units;
            forall c :: c in rest ==> rest[c] == d.units[c]
  {
  }

  lemma FewerUnitsStayDisjoint(units: map<string, ComputeUnit>, fewer: map<string, ComputeUnit>)
    requires CpusDisjoint(units)
    requires forall c :: c in fewer ==> c in units && fewer[c] == units[c]
    ensures CpusDisjoint(fewer)
  {
    hide CpusOf;
  }

  /** Dropping the units of an idle host, and perhaps the host itself. */
  lemma UnitsGoneKeepsInv(s: State, t: State, hostname: string)
    requires Inv(s) && Idle(s, hostname)
    requires t.db.allocations == s.db.allocations && t.inFlight == s.inFlight && t.db.pool == s.db.pool
    requires t.db.units == s.db.WithoutUnits(hostname).units
    requires forall h :: h in s.db.servers && h != hostname ==>
                           h in t.db.servers && t.db.servers[h].status == s.db.servers[h].status
    requires JobsQuiet(s, t)
    ensures Inv(t) && Quiet(s, t)
  {
    RemainingUnits(s.db, hostname);
    hide Database.WithoutUnits, CpusDisjoint, CpusOf, AllocationOk, InFlightOk, JobsOk, JobsQuiet, AddressOk,
         Exclusive, LoginsDistinct, UnitOk, HostsQuiet, ServersOk, UnitsQuiet;
    FewerUnitsStayDisjoint(s.db.units, t.db.units);
    RemainingHosts(s, t, hostname);
    RemainingQuiet(s, t, hostname);
    QuietKeepsInv(s, t);
  }

  lemma RemainingHosts(s: State, t: State, hostname: string)
    requires forall c :: c in s.db.units ==> UnitOk(s, c)
    requires ServersOk(s)
    requires forall c :: c in t.db.units ==>
                           c in s.db.units && t.db.units[c] == s.db.units[c] && t.db.units[c].hostname != hostname
    requires forall h :: h in s.db.servers && h != hostname ==>
                           h in t.db.servers && t.db.servers[h].status == s.db.servers[h].status
    ensures HostsQuiet(t) && ServersOk(t)
  {
    forall c | c in t.db.units
      ensures t.db.units[c].hostname in t.db.servers
      ensures t.db.units[c].status != UnitStatus.Free ==> t.db.servers[t.db.units[c].hostname].status == Ready
      ensures !Bare(t.db.servers[t.db.units[c].hostname].status)
    {
      assert UnitOk(s, c);
    }
  }

  lemma RemainingQuiet(s: State, t: State, hostname: string)
    requires Idle(s, hostname)
    requires forall c :: c in t.db.units <==> c in s.db.units && s.db.units[c].hostname != hostname
    requires forall c :: c in t.db.units ==> t.db.units[c] == s.db.units[c]
    ensures UnitsQuiet(s, t)
  {
  }

  lemma DeleteServerKeepsInv(s: State, hostname: string)
    requires Inv(s)
    ensures var t := s.(db := DeleteServerOutcome(s.db, hostname).0); Inv(t) && (t == s || Quiet(s, t))
  {
    hide Quiet, AllocationOk, InFlightOk, CpusDisjoint, AddressOk, UnitOk, ValidUnits, ServersOk, JobsQuiet, Idle;
    var t := s.(db := DeleteServerOutcome(s.db, hostname).0);
    if hostname in s.db.servers && Deletable(s.db.servers[hostname].status) {
      NotReadyIsIdle(s, hostname);
      CascadeIsHarmless(s, hostname);
      forall job | job in t.db.jobs ensures HostOf(job) != Some(hostname) {
        JobIsOk(s, job);
      }
      ServerJobsQuiet(s, t, hostname);
      UnitsGoneKeepsInv(s, t, hostname);
    }
  }

  /** Taking a server job leaves none for its host. */
  lemma TakenServerJob(s: State, t: State, job: Command, hostname: string)
    requires Inv(s) && job in s.db.jobs && HostOf(job) == Some(hostname)
    requires t.db.jobs == s.db.jobs - multiset{job}
    requires forall h :: h in s.db.servers && h != hostname ==>
             h in t.db.servers && t.db.servers[h].status == s.db.servers[h].status
    ensures JobsQuiet(s, t)
  {
    hide AllocationOk, InFlightOk, CpusDisjoint, AddressOk, UnitOk, ValidUnits, ServersOk, JobsQuiet;
    JobIsOk(s, job);
    forall other | other in t.db.jobs ensures HostOf(other) != Some(hostname) {
      JobIsOk(s, other);
      assert Rival(other, job) ==> other == job;
    }
    ServerJobsQuiet(s, t, hostname);
  }

  /** What the decommission job leaves of the tables. */
  lemma DecommTables(d: Database, hostname: string, result: PlaybookResult)
    requires hostname in d.servers
    ensures var e := DecommFinished(d, hostname, result).db;
            && hostname in e.servers
            && (forall h :: h in d.servers && h != hostname ==> h in e.servers && e.servers[h] == d.servers[h])
            && (forall h :: h in e.servers ==> h in d.servers)
            && e.jobs == d.jobs && e.pool == d.pool
            && e.units == (if result.Successful? then d.WithoutUnits(hostname).units else d.units)
            && e.allocations == (if result.Successful? then d.WithoutUnits(hostname).allocations else d.allocations)
  {
    if result.Successful? {
      var f := d.WithServerStatus(hostname, Decommissioned);
      SameUnitsSameRest(d, f, hostname);
    }
  }

  lemma SameUnitsSameRest(d: Database, e: Database, hostname: string)
    requires d.units == e.units && d.allocations == e.allocations
    ensures d.WithoutUnits(hostname).units == e.WithoutUnits(hostname).units
    ensures d.WithoutUnits(hostname).allocations == e.WithoutUnits(hostname).allocations
  {
  }

  lemma RunDecommKeepsInv(s: State, hostname: string, result: PlaybookResult)
    requires Inv(s) && ServerDecomm(hostname) in s.db.jobs
    ensures var t := s.(db := DecommFinished(Taken(s.db, ServerDecomm(hostname)), hostname, result).db);
            Inv(t) && (t == s || Quiet(s, t))
  {
    hide Quiet, Inv, JobsQuiet, Idle, UnitsOn, DecommFinished, Database.WithoutUnits;
    var d := Taken(s.db, ServerDecomm(hostname));
    var t := s.(db := DecommFinished(d, hostname, result).db);
    DecommJobFacts(s, hostname);
    DecommTables(d, hostname, result);
    SameUnitsSameRest(d, s.db, hostname);
    IdleUnitsGoQuietly(s, hostname);
    TakenServerJob(s, t, ServerDecomm(hostname), hostname);
    if result.Successful? {
      UnitsGoneKeepsInv(s, t, hostname);
    } else {
      DecommFailedStep(s, t, hostname, result);
      ServerStepKeepsInv(s, t, hostname);
    }
  }

  lemma DecommJobFacts(s: State, hostname: string)
    requires Inv(s) && ServerDecomm(hostname) in s.db.jobs
    ensures hostname in s.db.servers && s.db.servers[hostname].status == Decommissioning && Idle(s, hostname)
  {
    hide AllocationOk, InFlightOk, CpusDisjoint, AddressOk, UnitOk, ValidUnits, ServersOk, Idle;
    JobIsOk(s, ServerDecomm(hostname));
    NotReadyIsIdle(s, hostname);
  }

  lemma DecommFailedStep(s: State, t: State, hostname: string, result: PlaybookResult)
    requires hostname in s.db.servers && s.db.servers[hostname].status == Decommissioning && Idle(s, hostname)
    requires !result.Successful?
    requires t == s.(db := DecommFinished(Taken(s.db, ServerDecomm(hostname)), hostname, result).db)
    ensures ServerStep(s, t, hostname)
  {
    hide Idle;
  }

  // ---- Rows that come ----

  /** Inserting units never changes a row; each new row is a free unit of the list. */
  lemma {:induction false} InsertedUnitsFacts(d: Database, hostname: string, units: seq<InitUnit>)
    requires hostname in d.servers
    ensures var p := InsertedUnits(d, hostname, units);
            && !p.raised && p.db == d.(units := p.db.units)
            && (forall c :: c in d.units ==> c in p.db.units && p.db.units[c] == d.units[c])
            && (forall c :: c in p.db.units && c !in d.units ==> FromList(hostname, units, c, p.db.units[c]))
  {
    if units != [] {
      var init := units[..|units| - 1];
      InsertedUnitsFacts(d, hostname, init);
      var before := InsertedUnits(d, hostname, init).db;
      var after := InsertedUnits(d, hostname, units).db;
      forall c | c in after.units && c !in d.units ensures FromList(hostname, units, c, after.units[c]) {
        if c in before.units {
          var i :| 0 <= i < |init| && IsRowOf(hostname, init[i], c, before.units[c]);
          assert IsRowOf(hostname, units[i], c, after.units[c]);
        } else {
          assert IsRowOf(hostname, units[|units| - 1], c, after.units[c]);
        }
      }
    }
  }

  predicate IsRowOf(hostname: string, unit: InitUnit, c: string, row: ComputeUnit) {
    row == UnitRow(hostname, unit) && c == ComputeIds.ComputeId(hostname, unit.ordinal)
  }

  ghost predicate FromList(hostname: string, units: seq<InitUnit>, c: string, row: ComputeUnit) {
    exists i :: 0 <= i < |units| && IsRowOf(hostname, units[i], c, row)
  }

  lemma InitUnitsDisjoint(specs: seq<UnitSpec>)
    requires ValidUnits(specs)
    ensures PairwiseDisjoint(CpuSets(InitUnits(specs)))
  {
    hide CpusOf, AllApart, InitUnits, SortSpecs, StartOf, TotalCpuCount, Union, Parses, IdsOf;
    InitUnitsPartition(specs);
  }

  lemma InsertedCpusDisjoint(s: State, t: State, init: InitRequest)
    requires ValidUnits(init.specs) && !UnitsOn(s.db, init.hostname) && CpusDisjoint(s.db.units)
    requires forall c :: c in t.db.units && c in s.db.units ==> t.db.units[c] == s.db.units[c]
    requires forall c :: c in t.db.units && c !in s.db.units ==>
             FromList(init.hostname, InitUnits(init.specs), c, t.db.units[c])
    ensures CpusDisjoint(t.db.units)
  {
    InitUnitsDisjoint(init.specs);
    hide CpusOf, ValidUnits, InitUnits, FromList, PairwiseDisjoint, CpuSets;
    var units := InitUnits(init.specs);
    forall c | c in t.db.units && c !in s.db.units ensures t.db.units[c].hostname == init.hostname {
      ListedFacts(init.hostname, units, c, t.db.units[c]);
    }
    forall c, e | c in t.db.units && e in t.db.units && c != e && t.db.units[c].hostname == t.db.units[e].hostname
      ensures CpusOf(t.db.units[c].cpuSet) !! CpusOf(t.db.units[e].cpuSet)
    {
      if c !in s.db.units && e !in s.db.units {
        ListedDisjoint(init.hostname, units, c, t.db.units[c], e, t.db.units[e]);
      }
    }
  }

  lemma ListedFacts(hostname: string, units: seq<InitUnit>, c: string, row: ComputeUnit)
    requires FromList(hostname, units, c, row)
    ensures row.hostname == hostname
  {
  }

  /** Two units of one list either are the same or share no CPU. */
  lemma ListedDisjoint(hostname: string, units: seq<InitUnit>, c: string, x: ComputeUnit, e: string, y: ComputeUnit)
    requires PairwiseDisjoint(CpuSets(units))
    requires FromList(hostname, units, c, x) && FromList(hostname, units, e, y) && c != e
    ensures CpusOf(x.cpuSet) !! CpusOf(y.cpuSet)
  {
    hide CpusOf, ComputeIds.ComputeId;
    var i :| 0 <= i < |units| && IsRowOf(hostname, units[i], c, x);
    var j :| 0 <= j < |units| && IsRowOf(hostname, units[j], e, y);
    assert CpuSets(units)[i] !! CpuSets(units)[j];
  }

  /** New free units on a bare host that has just become ready. */
  lemma UnitsComeKeepsInv(s: State, t: State, init: InitRequest)
    requires Inv(s) && ValidUnits(init.specs) && !UnitsOn(s.db, init.hostname)
    requires t.db.allocations == s.db.allocations && t.inFlight == s.inFlight && t.db.pool == s.db.pool
    requires forall c :: c in s.db.units ==> c in t.db.units && t.db.units[c] == s.db.units[c]
    requires forall c :: c in t.db.units && c !in s.db.units ==>
             FromList(init.hostname, InitUnits(init.specs), c, t.db.units[c])
    requires init.hostname in t.db.servers && t.db.servers[init.hostname].status == Ready
    requires forall h :: h in s.db.servers && h != init.hostname ==>
             h in t.db.servers && t.db.servers[h].status == s.db.servers[h].status
    requires JobsQuiet(s, t)
    ensures Inv(t) && Quiet(s, t)
  {
    hide AllocationOk, InFlightOk, CpusDisjoint, CpusOf, AddressOk, AllApart, JobsQuiet, InitUnits, JobsOk, Exclusive,
         LoginsDistinct, UnitOk, HostsQuiet, ServersOk, UnitsQuiet, FromList;
    InsertedCpusDisjoint(s, t, init);
    NewUnitsQuiet(s, t, init.hostname, InitUnits(init.specs));
    NewHosts(s, t, init.hostname);
    QuietKeepsInv(s, t);
  }

  lemma NewUnitsQuiet(s: State, t: State, hostname: string, units: seq<InitUnit>)
    requires forall c :: c in s.db.units ==> c in t.db.units && t.db.units[c] == s.db.units[c]
    requires forall c :: c in t.db.units && c !in s.db.units ==> FromList(hostname, units, c, t.db.units[c])
    ensures UnitsQuiet(s, t)
    ensures forall c :: c in t.db.units && c !in s.db.units ==>
                          t.db.units[c].hostname == hostname && t.db.units[c].status == UnitStatus.Free
  {
    hide ComputeIds.ComputeId;
  }

  lemma NewHosts(s: State, t: State, hostname: string)
    requires (forall c :: c in s.db.units ==> UnitOk(s, c)) && ServersOk(s)
    requires forall c :: c in s.db.units ==> c in t.db.units && t.db.units[c] == s.db.units[c]
    requires forall c :: c in t.db.units && c !in s.db.units ==>
                           t.db.units[c].hostname == hostname && t.db.units[c].status == UnitStatus.Free
    requires hostname in t.db.servers && t.db.servers[hostname].status == Ready
    requires forall h :: h in s.db.servers && h != hostname ==>
                           h in t.db.servers && t.db.servers[h].status == s.db.servers[h].status
    ensures HostsQuiet(t) && ServersOk(t)
  {
    forall c | c in t.db.units
      ensures t.db.units[c].hostname in t.db.servers
      ensures t.db.units[c].status != UnitStatus.Free ==> t.db.servers[t.db.units[c].hostname].status == Ready
      ensures !Bare(t.db.servers[t.db.units[c].hostname].status)
    {
      if c in s.db.units {
        assert UnitOk(s, c);
      }
    }
  }

  lemma RunInitKeepsInv(s: State, init: InitRequest, result: PlaybookResult)
    requires Inv(s) && ValidUnits(init.specs) && ServerInit(init) in s.db.jobs
    ensures var t := s.(db := InitFinished(Taken(s.db, ServerInit(init)), init, result).db);
            Inv(t) && (t == s || Quiet(s, t))
  {
    hide Quiet, AllocationOk, InFlightOk, CpusDisjoint, AddressOk, AllApart, JobsQuiet, InitUnits, InsertedUnits,
         JobsOk, UnitOk, FromList;
    var d := Taken(s.db, ServerInit(init));
    var t := s.(db := InitFinished(d, init, result).db);
    JobIsOk(s, ServerInit(init));
    assert !UnitsOn(s.db, init.hostname);
    NoUnitsIsIdle(s, init.hostname);
    InsertedUnitsFacts(d, init.hostname, InitUnits(init.specs));
    TakenServerJob(s, t, ServerInit(init), init.hostname);
    if result.Successful? {
      UnitsComeKeepsInv(s, t, init);
    } else {
      ServerStepKeepsInv(s, t, init.hostname);
    }
  }

  // ---- The pool ----

  lemma PoolStepKeepsInv(s: State, t: State)
    requires Inv(s) && PoolQuiet(s, t) && t == s.(db := s.db.(pool := t.db.pool))
    ensures Inv(t) && Quiet(s, t)
  {
    hide AllocationOk, InFlightOk, CpusDisjoint, AddressOk, PoolQuiet, ValidUnits;
    assert HostsQuiet(t) by {
      assert forall c :: c in s.db.units ==> UnitOk(s, c);
    }
    assert JobsQuiet(s, t) by {
      forall job | job in s.db.jobs ensures JobOk(t, job) {
        JobIsOk(s, job);
      }
    }
    QuietKeepsInv(s, t);
  }

  lemma InsertAddressesKeepsInv(s: State, addresses: seq<string>)
    requires Inv(s)
    ensures var t := s.(db := InsertAddressesOutcome(s.db, addresses).0); Inv(t) && (t == s || Quiet(s, t))
  {
    hide Quiet, Inv;
    PoolStepKeepsInv(s, s.(db := InsertAddressesOutcome(s.db, addresses).0));
  }

  lemma DeleteAddressKeepsInv(s: State, ip: string)
    requires Inv(s)
    ensures var t := s.(db := DeleteAddressOutcome(s.db, ip).0); Inv(t) && (t == s || Quiet(s, t))
  {
    hide Quiet, Inv;
    PoolStepKeepsInv(s, s.(db := DeleteAddressOutcome(s.db, ip).0));
  }
}
