/**
 Steps that concern one allocation, placed or new: they rewrite its row, its address, and units and
 addresses that were free, held by it or locked for it. Everything else keeps the invariant untouched.
 */
module ProtocolLocal {
  import Allocations
  import opened Options
  import opened Protocol
  import opened Tables

  /** The allocation a job is about. */
  function Concerns(job: Command): Option<string> {
    match job
    case AllocationCreate(a, _) => Some(a)
    case AllocationDelete(a, _) => Some(a)
    case AllocationScale(a, _) => Some(a)
    case _ => None
  }

  /** A unit the step may rewrite. */
  ghost predicate Own(s: State, a: string, c: string) {
    c in s.db.units && (Holds(s, a, c) || Targets(s, a, c) || s.db.units[c].status == UnitStatus.Free)
  }

  /** An address the step may rewrite. */
  ghost predicate OwnIp(s: State, a: string, ip: string) {
    ip in s.db.pool
    && (s.db.pool[ip].status == IpStatus.Free || (a in s.db.allocations && s.db.allocations[a].ipAddress == ip))
  }

  /** A unit's columns that no allocation step changes. */
  predicate SameUnit(x: ComputeUnit, y: ComputeUnit) {
    x == y.(status := x.status, allocationId := x.allocationId)
  }

  /** The allocation the step is about: already placed, or not known yet. */
  predicate Subject(s: State, a: string) {
    a in s.db.allocations ==> s.db.allocations[a].computeId.Some?
  }

  /** The identity of a known allocation stays; a new one has a login user of its own. */
  ghost predicate IdentityKept(s: State, t: State, a: string)
    requires a in t.db.allocations
  {
    var row := t.db.allocations[a];
    if a in s.db.allocations
    then row.loginUser == s.db.allocations[a].loginUser && row.ipAddress == s.db.allocations[a].ipAddress
    else !Allocations.LoginActive(s.db, row.loginUser)
  }

  /** t follows s by rewriting nothing but what belongs to a, or was free. */
  ghost predicate Local(s: State, t: State, a: string) {
    && t.db.servers == s.db.servers
    && t.db.allocations.Keys == s.db.allocations.Keys + {a}
    && (forall b :: b in s.db.allocations && b != a ==> t.db.allocations[b] == s.db.allocations[b])
    && IdentityKept(s, t, a)
    && t.db.units.Keys == s.db.units.Keys
    && (forall c :: c in s.db.units ==> SameUnit(t.db.units[c], s.db.units[c]))
    && (forall c :: c in s.db.units && !Own(s, a, c) ==> t.db.units[c] == s.db.units[c])
    && t.db.pool.Keys == s.db.pool.Keys
    && (forall i :: i in s.db.pool && !OwnIp(s, a, i) ==> t.db.pool[i] == s.db.pool[i])
    && t.inFlight - {a} == s.inFlight - {a}
    && (forall job :: Concerns(job) != Some(a) ==> t.db.jobs[job] == s.db.jobs[job])
  }

  ghost predicate LocalTo(s: State, t: State, a: string) {
    Subject(s, a) && Local(s, t, a)
  }

  /** The invariant on the rows that a local step rewrites. */
  ghost predicate OwnRowsOk(s: State, t: State, a: string)
    requires Local(s, t, a)
  {
    && AllocationOk(t, a)
    && (forall c :: Holds(t, a, c) || Targets(t, a, c) ==> Own(s, a, c))
    && (forall c :: c in s.db.units && Own(s, a, c) ==> UnitOk(t, c))
    && (forall i :: i in s.db.pool && OwnIp(s, a, i) ==> AddressOk(t, i))
    && (a in t.inFlight ==> InFlightOk(t, a))
    && (forall job :: job in t.db.jobs && Concerns(job) == Some(a) ==> JobOk(t, job) && t.db.jobs[job] == 1)
    && (forall x, y :: x in t.db.jobs && y in t.db.jobs && Concerns(x) == Some(a) && Rival(x, y) ==> x == y)
  }

  /** What belongs to another allocation is out of reach. */
  lemma OthersNotOwn(s: State, a: string, b: string, c: string)
    requires b in s.db.allocations && a != b && AllocationOk(s, b) && Exclusive(s)
    requires a in s.db.allocations ==> AllocationOk(s, a)
    requires a in s.inFlight ==> InFlightOk(s, a)
    requires b in s.inFlight ==> InFlightOk(s, b)
    requires Holds(s, b, c) || Targets(s, b, c)
    ensures c in s.db.units && !Own(s, a, c)
  {
    hide AwaitsScale;
  }

  lemma OthersIpNotOwn(s: State, a: string, b: string)
    requires Subject(s, a) && b in s.db.allocations && a != b && AllocationOk(s, b)
    requires a in s.db.allocations ==> AllocationOk(s, a)
    ensures s.db.allocations[b].computeId.Some? ==> !OwnIp(s, a, s.db.allocations[b].ipAddress)
  {
    hide AwaitsScale;
  }

  lemma LocalAllocations(s: State, t: State, a: string, b: string)
    requires Local(s, t, a) && b in s.db.allocations && b != a && AllocationOk(s, b)
    requires forall c :: Holds(s, b, c) ==> !Own(s, a, c)
    requires s.db.allocations[b].computeId.Some? ==> !OwnIp(s, a, s.db.allocations[b].ipAddress)
    ensures AllocationOk(t, b)
  {
    hide Own, OwnIp, SameUnit, IdentityKept;
    if s.db.allocations[b].computeId.Some? {
      var c := s.db.allocations[b].computeId.value;
      assert Holds(s, b, c);
      assert t.db.units[c] == s.db.units[c];
      assert b in s.inFlight ==> b in s.inFlight - {a} && b in t.inFlight;
      if AwaitsScale(s, b) {
        var filter :| AllocationScale(b, filter) in s.db.jobs;
        assert Concerns(AllocationScale(b, filter)) == Some(b);
        assert AllocationScale(b, filter) in t.db.jobs;
      }
      assert Concerns(AllocationCreate(b, c)) == Some(b) && Concerns(AllocationDelete(b, c)) == Some(b);
    }
  }

  lemma LocalUnits(s: State, t: State, a: string, c: string)
    requires Local(s, t, a) && c in s.db.units && !Own(s, a, c) && UnitOk(s, c)
    ensures UnitOk(t, c)
  {
    hide SameUnit, IdentityKept, OwnIp;
    assert t.db.units[c] == s.db.units[c];
    if s.db.units[c].status != UnitStatus.Free {
      var b :| Holds(s, b, c) || Targets(s, b, c);
      assert b != a;
      assert Holds(s, b, c) ==> Holds(t, b, c);
      assert Targets(s, b, c) ==> b in s.inFlight - {a} && Targets(t, b, c);
    }
  }

  lemma LocalAddresses(s: State, t: State, a: string, ip: string)
    requires Local(s, t, a) && ip in s.db.pool && !OwnIp(s, a, ip) && AddressOk(s, ip)
    ensures AddressOk(t, ip)
  {
    hide SameUnit, Own;
  }

  lemma LocalInFlight(s: State, t: State, a: string, b: string)
    requires Local(s, t, a) && b in s.inFlight && b != a && InFlightOk(s, b)
    requires forall c :: Targets(s, b, c) ==> !Own(s, a, c)
    ensures b in t.inFlight && InFlightOk(t, b)
  {
    hide SameUnit, Own, OwnIp, IdentityKept;
    assert b in s.inFlight - {a};
    assert Targets(s, b, s.inFlight[b].target);
    forall filter ensures AllocationScale(b, filter) in t.db.jobs <==> AllocationScale(b, filter) in s.db.jobs {
      assert Concerns(AllocationScale(b, filter)) == Some(b);
    }
  }

  lemma LocalJobs(s: State, t: State, a: string)
    requires Local(s, t, a) && OwnRowsOk(s, t, a) && JobsOk(s)
    ensures JobsOk(t)
  {
    hide SameUnit, Own, OwnIp, IdentityKept, AllocationOk, UnitOk, AddressOk, InFlightOk, ServerSpecs.ValidUnits;
    forall job | job in t.db.jobs ensures JobOk(t, job) && t.db.jobs[job] == 1 {
      if Concerns(job) != Some(a) {
        assert job in s.db.jobs && JobOk(s, job);
      }
    }
    forall x, y | x in t.db.jobs && y in t.db.jobs && Rival(x, y) ensures x == y {
      if Concerns(x) != Some(a) {
        assert Concerns(y) != Some(a);
        assert x in s.db.jobs && y in s.db.jobs;
      }
    }
  }

  /** Any other holder or target stays what it was. */
  lemma OtherHolder(s: State, t: State, a: string, b: string, c: string)
    requires Inv(s) && Subject(s, a) && Local(s, t, a)
    requires b != a && (Holds(t, b, c) || Targets(t, b, c))
    ensures Holds(t, b, c) ==> Holds(s, b, c)
    ensures Targets(t, b, c) ==> Targets(s, b, c)
    ensures !Own(s, a, c)
  {
    hide SameUnit, AllocationOk, UnitOk, AddressOk, JobsOk, AwaitsScale, OwnIp, IdentityKept;
    assert b in t.inFlight ==> b in t.inFlight - {a} && b in s.inFlight;
    assert b in s.db.allocations;
    OthersNotOwn(s, a, b, c);
  }

  lemma LocalExclusive(s: State, t: State, a: string)
    requires Inv(s) && Subject(s, a) && Local(s, t, a) && OwnRowsOk(s, t, a)
    ensures Exclusive(t)
  {
    hide SameUnit, AllocationOk, UnitOk, AddressOk, InFlightOk, JobsOk, Own, OwnIp, AwaitsScale, IdentityKept;
    forall b, c | b != a && Holds(t, b, c) ensures !Own(s, a, c) && Holds(s, b, c) {
      OtherHolder(s, t, a, b, c);
    }
    forall b, c | b != a && Targets(t, b, c) ensures !Own(s, a, c) && Targets(s, b, c) {
      OtherHolder(s, t, a, b, c);
    }
  }

  lemma LocalLogins(s: State, t: State, a: string)
    requires Local(s, t, a) && LoginsDistinct(s)
    requires a in s.db.allocations ==> s.db.allocations[a].status != Deallocated
    ensures LoginsDistinct(t)
  {
    hide SameUnit, Own, OwnIp;
  }

  /** A local step that is right about its own rows keeps the invariant. */
  lemma LocalStep(s: State, t: State, a: string)
    requires Inv(s) && Subject(s, a) && Local(s, t, a) && OwnRowsOk(s, t, a)
    ensures Inv(t)
  {
    hide AllocationOk, UnitOk, AddressOk, InFlightOk, JobsOk, Exclusive, Own, OwnIp, IdentityKept, LoginsDistinct;
    forall b | b in t.db.allocations ensures AllocationOk(t, b) {
      if b != a {
        forall c | Holds(s, b, c) ensures !Own(s, a, c) {
          OthersNotOwn(s, a, b, c);
        }
        OthersIpNotOwn(s, a, b);
        LocalAllocations(s, t, a, b);
      }
    }
    forall c | c in t.db.units ensures UnitOk(t, c) {
      if !Own(s, a, c) {
        LocalUnits(s, t, a, c);
      }
    }
    forall ip | ip in t.db.pool ensures AddressOk(t, ip) {
      if !OwnIp(s, a, ip) {
        LocalAddresses(s, t, a, ip);
      }
    }
    forall b | b in t.inFlight ensures InFlightOk(t, b) {
      if b != a {
        assert b in t.inFlight - {a} && b in s.inFlight;
        forall c | Targets(s, b, c) ensures !Own(s, a, c) {
          InFlightIsAllocation(s, b);
          OthersNotOwn(s, a, b, c);
        }
        LocalInFlight(s, t, a, b);
      }
    }
    LocalJobs(s, t, a);
    LocalExclusive(s, t, a);
    if a in s.db.allocations {
      ActiveWhenPlaced(s, a);
    }
    LocalLogins(s, t, a);
    assert forall c :: c in t.db.units ==> SameUnit(t.db.units[c], s.db.units[c]);
  }

  lemma ActiveWhenPlaced(s: State, a: string)
    requires a in s.db.allocations && s.db.allocations[a].computeId.Some? && AllocationOk(s, a)
    ensures s.db.allocations[a].status != Deallocated
  {
  }

  lemma InFlightIsAllocation(s: State, a: string)
    requires a in s.inFlight && InFlightOk(s, a)
    ensures a in s.db.allocations
  {
  }
}
