/**
 The two locks taken apart. Each is one statement that selects the lowest candidate and then updates it
 if its status is still FREE; between the two, other statements may run. Here any number of claimants
 select and claim in any order, and anything else may happen to the database in between.
 */
module Claims {
  import opened Administration
  import opened Options
  import opened Tables

  datatype Resource = Unit(id: string) | Address(ip: string)

  /** A claimant either looks for a unit or for an address. */
  datatype Wanted = AnyUnit(filter: Filter) | AnyAddress

  datatype Action =
    | Select(claimant: nat, wanted: Wanted)
    | Claim(claimant: nat)
    | Other(after: Database)

  /** The database, and what each claimant's last select found. */
  datatype Race = Race(db: Database, found: map<nat, Resource>)

  predicate IsFree(d: Database, x: Resource) {
    match x
    case Unit(id) => id in d.units && d.units[id].status == UnitStatus.Free
    case Address(ip) => FreeIp(d.pool, ip)
  }

  /** The row once its claim succeeded. */
  function Locked(d: Database, x: Resource): Database
    requires IsFree(d, x)
  {
    match x
    case Unit(id) => d.(units := d.units[id := d.units[id].(status := UnitStatus.Allocating)])
    case Address(ip) => d.(pool := d.pool[ip := d.pool[ip].(status := IpStatus.Reserved)])
  }

  ghost function Candidate(d: Database, wanted: Wanted): Option<Resource> {
    match wanted
    case AnyUnit(filter) => if PickUnit(d, filter).None? then None else Some(Unit(PickUnit(d, filter).value))
    case AnyAddress => if PickIp(d.pool).None? then None else Some(Address(PickIp(d.pool).value))
  }

  /** The resource that this action claims, if it succeeds. */
  function Won(r: Race, a: Action): Option<Resource> {
    if a.Claim? && a.claimant in r.found && IsFree(r.db, r.found[a.claimant])
    then Some(r.found[a.claimant]) else None
  }

  ghost function Next(r: Race, a: Action): Race {
    match a
    case Select(c, wanted) =>
      var x := Candidate(r.db, wanted);
      r.(found := if x.None? then r.found - {c} else r.found[c := x.value])
    case Claim(c) =>
      var x := Won(r, a);
      Race(if x.None? then r.db else Locked(r.db, x.value), r.found - {c})
    case Other(after) => r.(db := after)
  }

  /** The state before the i-th action. */
  ghost function At(r: Race, actions: seq<Action>, i: nat): Race
    requires i <= |actions|
  {
    if i == 0 then r else Next(At(r, actions, i - 1), actions[i - 1])
  }

  /** The i-th action claims x. */
  ghost predicate ClaimsAt(r: Race, actions: seq<Action>, i: nat, x: Resource) {
    i < |actions| && Won(At(r, actions, i), actions[i]) == Some(x)
  }

  /** The i-th action makes x free. */
  ghost predicate Frees(r: Race, actions: seq<Action>, i: nat, x: Resource) {
    i < |actions| && !IsFree(At(r, actions, i).db, x) && IsFree(At(r, actions, i + 1).db, x)
  }

  /** The i-th action makes x anything but free. */
  ghost predicate Takes(r: Race, actions: seq<Action>, i: nat, x: Resource) {
    i < |actions| && IsFree(At(r, actions, i).db, x) && !IsFree(At(r, actions, i + 1).db, x)
  }

  lemma NextChanges(r: Race, a: Action, x: Resource)
    ensures Won(r, a) == Some(x) ==> IsFree(r.db, x) && !IsFree(Next(r, a).db, x)
    ensures !IsFree(r.db, x) && IsFree(Next(r, a).db, x) ==> a.Other?
    ensures IsFree(r.db, x) && !IsFree(Next(r, a).db, x) ==> a.Other? || Won(r, a) == Some(x)
  {
  }

  lemma {:induction false} BecomesFree(r: Race, actions: seq<Action>, i: nat, j: nat, x: Resource)
    requires i <= j <= |actions|
    requires !IsFree(At(r, actions, i).db, x) && IsFree(At(r, actions, j).db, x)
    ensures exists k :: i <= k < j && Frees(r, actions, k, x) && actions[k].Other?
    decreases j - i
  {
    hide IsFree, Next;
    if IsFree(At(r, actions, i + 1).db, x) {
      NextChanges(At(r, actions, i), actions[i], x);
      assert Frees(r, actions, i, x);
    } else {
      BecomesFree(r, actions, i + 1, j, x);
    }
  }

  /**
   Exclusive claims: however claimants interleave, two successful claims of one unit or address have a
   release of it to FREE between them, and that release is not the work of a claimant.
   */
  lemma ClaimsAreExclusive(r: Race, actions: seq<Action>, i: nat, j: nat, x: Resource)
    requires i < j && ClaimsAt(r, actions, i, x) && ClaimsAt(r, actions, j, x)
    ensures exists k :: i < k < j && Frees(r, actions, k, x) && actions[k].Other?
  {
    hide IsFree, Next;
    NextChanges(At(r, actions, i), actions[i], x);
    NextChanges(At(r, actions, j), actions[j], x);
    BecomesFree(r, actions, i + 1, j, x);
  }

  /** The claimant does nothing from i on and before j. */
  ghost predicate Waits(actions: seq<Action>, c: nat, i: nat, j: nat)
    requires j <= |actions|
  {
    forall k :: i <= k < j && !actions[k].Other? ==> actions[k].claimant != c
  }

  lemma {:induction false} FoundStays(r: Race, actions: seq<Action>, c: nat, i: nat, j: nat)
    requires i <= j <= |actions| && Waits(actions, c, i, j)
    ensures c in At(r, actions, j).found <==> c in At(r, actions, i).found
    ensures c in At(r, actions, i).found ==> At(r, actions, j).found[c] == At(r, actions, i).found[c]
  {
    if i < j {
      FoundStays(r, actions, c, i, j - 1);
    }
  }

  lemma {:induction false} BecomesTaken(r: Race, actions: seq<Action>, i: nat, j: nat, x: Resource)
    requires i <= j <= |actions|
    requires IsFree(At(r, actions, i).db, x) && !IsFree(At(r, actions, j).db, x)
    ensures exists k :: i <= k < j && Takes(r, actions, k, x) && (actions[k].Other? || ClaimsAt(r, actions, k, x))
    decreases j - i
  {
    hide IsFree, Next;
    if !IsFree(At(r, actions, i + 1).db, x) {
      NextChanges(At(r, actions, i), actions[i], x);
      assert Takes(r, actions, i, x);
    } else {
      BecomesTaken(r, actions, i + 1, j, x);
    }
  }

  /**
   A claim that comes to nothing had nothing to claim, or was overtaken: between its select and its
   update somebody else claimed the row, or some other statement took or removed it.
   */
  lemma LosersWereOvertaken(r: Race, actions: seq<Action>, c: nat, wanted: Wanted, i: nat, j: nat)
    requires i < j < |actions| && actions[i] == Select(c, wanted) && actions[j] == Claim(c)
    requires Waits(actions, c, i + 1, j)
    requires Won(At(r, actions, j), actions[j]).None?
    ensures var x := Candidate(At(r, actions, i).db, wanted);
            x.Some? ==> exists k :: i < k < j && Takes(r, actions, k, x.value)
                                    && (actions[k].Other? || (ClaimsAt(r, actions, k, x.value)
                                          && actions[k].claimant != c))
  {
    hide IsFree, Next, Candidate;
    var x := Candidate(At(r, actions, i).db, wanted);
    SelectFinds(At(r, actions, i), c, wanted);
    FoundStays(r, actions, c, i + 1, j);
    if x.Some? {
      BecomesTaken(r, actions, i + 1, j, x.value);
    }
  }

  lemma SelectFinds(r: Race, c: nat, wanted: Wanted)
    ensures var x := Candidate(r.db, wanted);
            var next := Next(r, Select(c, wanted));
            x.Some? ==> next.db == r.db && IsFree(r.db, x.value) && c in next.found && next.found[c] == x.value
  {
  }

  /** With nothing in between, select and claim are the lock, and it succeeds whenever a row qualifies. */
  lemma SelectThenClaimIsLock(d: Database, wanted: Wanted, c: nat)
    ensures var selected := Next(Race(d, map[]), Select(c, wanted));
            var claimed := Next(selected, Claim(c));
            && Won(selected, Claim(c)) == Candidate(d, wanted)
            && claimed.found == map[]
            && claimed.db == match wanted
                             case AnyUnit(filter) => LockUnit(d, filter)
                             case AnyAddress => d.(pool := LockIp(d.pool))
  {
    var x := Candidate(d, wanted);
    var none: map<nat, Resource> := map[];
    if x.None? {
      assert none - {c} == none;
    } else {
      assert IsFree(d, x.value);
      assert none[c := x.value] - {c} == none;
    }
  }

  // ---- When a late claim is still a good one ----

  /** The conditions of the lock that concern the host. */
  predicate HostFits(d: Database, filter: Filter, hostname: string) {
    && hostname in d.servers
    && d.servers[hostname].status == Ready && d.servers[hostname].health == Healthy
    && (filter.region.Some? ==> d.servers[hostname].region == filter.region.value)
    && (filter.zone.Some? ==> d.servers[hostname].zone == filter.zone.value)
  }

  /** All conditions of the lock but the one its update looks at again. */
  predicate Fits(d: Database, filter: Filter, id: string) {
    && id in d.units && HostFits(d, filter, d.units[id].hostname)
    && (filter.cpuCount.Some? ==> d.units[id].cpuCount == filter.cpuCount.value)
  }

  lemma EligibleIsFreeAndFits(d: Database, filter: Filter, id: string)
    ensures d.Eligible(filter, id) <==> IsFree(d, Unit(id)) && Fits(d, filter, id)
  {
  }

  /** No claimant's action spoils a unit for anyone but by taking it. */
  lemma OnlyOthersSpoil(r: Race, a: Action, filter: Filter, id: string)
    ensures !a.Other? ==> (Fits(Next(r, a).db, filter, id) <==> Fits(r.db, filter, id))
  {
  }

  lemma {:induction false} SpoiledBetween(r: Race, actions: seq<Action>, filter: Filter, id: string, i: nat, j: nat)
    requires i <= j <= |actions|
    requires Fits(At(r, actions, i).db, filter, id) && !Fits(At(r, actions, j).db, filter, id)
    ensures exists k :: i <= k < j && Spoils(r, actions, k, filter, id) && actions[k].Other?
    decreases j - i
  {
    hide Fits, Next;
    if Fits(At(r, actions, i + 1).db, filter, id) {
      SpoiledBetween(r, actions, filter, id, i + 1, j);
    } else {
      OnlyOthersSpoil(At(r, actions, i), actions[i], filter, id);
      assert Spoils(r, actions, i, filter, id);
    }
  }

  /** The k-th action changes the unit's host or size so that the filter no longer admits it. */
  ghost predicate Spoils(r: Race, actions: seq<Action>, k: nat, filter: Filter, id: string) {
    k < |actions| && Fits(At(r, actions, k).db, filter, id) && !Fits(At(r, actions, k + 1).db, filter, id)
  }

  /**
   A late claim that succeeds has won a unit that the lock in one piece could still have chosen exactly
   when the unit's host passes the conditions at the update and the unit has kept its size. Otherwise
   a statement of somebody who is no claimant spoiled it in between.
   */
  lemma LateClaimIsGoodExactly(r: Race, actions: seq<Action>, c: nat, filter: Filter, id: string, i: nat, j: nat)
    requires i < j < |actions| && actions[i] == Select(c, AnyUnit(filter)) && actions[j] == Claim(c)
    requires Waits(actions, c, i + 1, j) && ClaimsAt(r, actions, j, Unit(id))
    ensures var before, now := At(r, actions, i).db, At(r, actions, j).db;
            && id in before.units && id in now.units
            && (now.Eligible(filter, id) <==>
                  && HostFits(now, filter, now.units[id].hostname)
                  && (filter.cpuCount.Some? ==> now.units[id].cpuCount == before.units[id].cpuCount))
            && (!now.Eligible(filter, id) ==>
                  exists k :: i < k < j && Spoils(r, actions, k, filter, id) && actions[k].Other?)
  {
    hide Next, Candidate, HostFits, Database.Eligible;
    var before, now := At(r, actions, i).db, At(r, actions, j).db;
    SelectFinds(At(r, actions, i), c, AnyUnit(filter));
    SelectFindsEligible(At(r, actions, i), c, filter);
    FoundStays(r, actions, c, i + 1, j);
    EligibleIsFreeAndFits(before, filter, id);
    EligibleIsFreeAndFits(now, filter, id);
    if !Fits(now, filter, id) {
      SpoiledBetween(r, actions, filter, id, i + 1, j);
    }
  }

  /** What a select for a unit leaves with the claimant: nothing, or an eligible unit. */
  lemma SelectFindsEligible(r: Race, c: nat, filter: Filter)
    ensures var next := Next(r, Select(c, AnyUnit(filter)));
            && next.db == r.db
            && (c in next.found ==> next.found[c].Unit? && r.db.Eligible(filter, next.found[c].id))
  {
  }

  /**
   The update looks at the row's own status only: a unit selected on a ready host is still won after
   the host has begun to leave. Under a lock in one piece it would not have been a candidate any more.
   */
  lemma ClaimIgnoresHost(d: Database, filter: Filter, c: nat)
    requires PickUnit(d, filter).Some? && !ActiveOn(d, d.units[PickUnit(d, filter).value].hostname)
    ensures var unit := PickUnit(d, filter).value;
            var selected := Next(Race(d, map[]), Select(c, AnyUnit(filter)));
            var leaving := DecommissionOutcome(d, d.units[unit].hostname);
            var overtaken := Next(selected, Other(leaving.0));
            && leaving.1 == Queued
            && Won(overtaken, Claim(c)) == Some(Unit(unit))
            && !leaving.0.Eligible(filter, unit)
  {
    hide ActiveOn;
  }

  // ---- Many claimants ----

  /** How many of the first n actions claim x. */
  ghost function Wins(r: Race, actions: seq<Action>, n: nat, x: Resource): nat
    requires n <= |actions|
  {
    if n == 0 then 0 else Wins(r, actions, n - 1, x) + if ClaimsAt(r, actions, n - 1, x) then 1 else 0
  }

  /** How many of the first n actions free x. */
  ghost function Releases(r: Race, actions: seq<Action>, n: nat, x: Resource): nat
    requires n <= |actions|
  {
    if n == 0 then 0 else Releases(r, actions, n - 1, x) + if Frees(r, actions, n - 1, x) then 1 else 0
  }

  /**
   The count: a row that is free at first is claimed at most once more than it is released, and one
   that is not free at first at most as often as it is released.
   */
  lemma {:induction false} WinsNeedReleases(r: Race, actions: seq<Action>, n: nat, x: Resource)
    requires n <= |actions|
    ensures Wins(r, actions, n, x) + (if IsFree(At(r, actions, n).db, x) then 1 else 0)
         <= Releases(r, actions, n, x) + (if IsFree(r.db, x) then 1 else 0)
  {
    hide IsFree, Next;
    if n > 0 {
      WinsNeedReleases(r, actions, n - 1, x);
      NextChanges(At(r, actions, n - 1), actions[n - 1], x);
    }
  }
}
