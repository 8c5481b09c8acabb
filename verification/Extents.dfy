/**
 The loop of the SERVER_INIT playbook that divides a volume group's free extents among the logical
 volumes still to be created (kloigos/resources/playbooks/SERVER_INIT.yaml).
 */
module Extents {
  import opened Arithmetic
  import opened Collections
  import opened ComputeIds
  import opened Text

  /** `cu%02d`. */
  function VolumeName(ordinal: nat): string {
    "cu" + TwoDigits(ordinal)
  }

  /** The ordinals whose volume does not exist yet, in the order of the request. */
  function Missing(ordinals: seq<nat>, volumes: map<string, nat>): seq<nat> {
    if ordinals == [] then [] else
    Missing(ordinals[..|ordinals| - 1], volumes)
    + if VolumeName(ordinals[|ordinals| - 1]) in volumes then [] else [ordinals[|ordinals| - 1]]
  }

  /** The extents of the i-th of n volumes that share `total`: the last total % n get one more. */
  function Share(total: nat, n: nat, i: nat): nat
    requires i < n
  {
    total / n + if i < n - total % n then 0 else 1
  }

  /** The extents that the first k of n volumes take together. */
  function Given(total: nat, n: nat, k: nat): nat
    requires k <= n
  {
    if k == 0 then 0 else Given(total, n, k - 1) + Share(total, n, k - 1)
  }

  /** The group after a successful run. */
  function Filled(ordinals: seq<nat>, volumes: map<string, nat>, free: nat): map<string, nat> {
    var missing := Missing(ordinals, volumes);
    FilledFirst(missing, volumes, free, |missing|)
  }

  /** The group once the first k missing volumes exist. */
  function FilledFirst(missing: seq<nat>, volumes: map<string, nat>, free: nat, k: nat): map<string, nat>
    requires k <= |missing|
  {
    if k == 0 then volumes
    else FilledFirst(missing, volumes, free, k - 1)[VolumeName(missing[k - 1]) := Share(free, |missing|, k - 1)]
  }

  /** How the shell ends: in full, for want of extents, or at a command that fails. */
  datatype Ending = Completed | NotEnoughSpace | CommandFailed

  class VolumeGroup {
    var volumes: map<string, nat>
    var free: nat

    constructor (volumes: map<string, nat>, free: nat)
      ensures this.volumes == volumes && this.free == free
    {
      this.volumes, this.free := volumes, free;
    }

    /** The first loop: how many volumes are missing. */
    method CountMissing(ordinals: seq<nat>) returns (remaining: nat)
      ensures remaining == |Missing(ordinals, volumes)|
    {
      remaining := 0;
      for k := 0 to |ordinals|
        invariant remaining == |Missing(ordinals[..k], volumes)|
      {
        assert ordinals[..k + 1][..k] == ordinals[..k];
        if VolumeName(ordinals[k]) !in volumes {
          remaining := remaining + 1;
        }
      }
      assert ordinals[..|ordinals|] == ordinals;
    }

    method CreateVolume(name: string, extents: nat)
      requires name !in volumes && 0 < extents <= free
      modifies this
      ensures volumes == old(volumes)[name := extents] && free == old(free) - extents
    {
      volumes, free := volumes[name := extents], free - extents;
    }

    /**
     Both loops, under `set -e`: `lvcreate` fails for some volumes, a later command (file system, mount)
     for others. Without such a failure the run ends for want of extents exactly when there are fewer of
     them than missing volumes, and then before it creates any; otherwise it uses up all free extents,
     shared as evenly as they divide. A failing command leaves the first few volumes of that same division.
     */
    method CreateVolumes(ordinals: seq<nat>, lvFails: set<nat>, laterFails: set<nat>) returns (ending: Ending)
      requires NoRepeats(ordinals)
      modifies this
      ensures ending == NotEnoughSpace ==>
                old(free) < |Missing(ordinals, old(volumes))| && volumes == old(volumes) && free == old(free)
      ensures ending == Completed ==>
                && old(free) >= |Missing(ordinals, old(volumes))|
                && volumes == Filled(ordinals, old(volumes), old(free))
                && free == if Missing(ordinals, old(volumes)) == [] then old(free) else 0
      ensures ending == CommandFailed ==>
                && (exists o :: o in ordinals && (o in lvFails || o in laterFails))
                && exists k: nat :: k <= |Missing(ordinals, old(volumes))|
                                    && Interrupted(ordinals, old(volumes), old(free), k, volumes, free)
    {
      hide VolumeName, Share, Missing, Given, FilledFirst, NoRepeats;
      ghost var before, total := volumes, free;
      ghost var missing := Missing(ordinals, before);
      ghost var n := |missing|;
      var remaining := CountMissing(ordinals);
      NothingYet(ordinals, before, total, n);
      assert ordinals[..|ordinals|] == ordinals;
      for k := 0 to |ordinals|
        invariant |Missing(ordinals[..k], before)| <= n && remaining == n - |Missing(ordinals[..k], before)|
        invariant volumes == FilledFirst(missing, before, total, n - remaining)
        invariant free == total - Given(total, n, n - remaining)
        invariant n > remaining ==> total >= n
      {
        MissingGrows(ordinals, before, k);
        ghost var done := n - remaining;
        assert ordinals[k] in ordinals;
        assert Interrupted(ordinals, before, total, done, volumes, free);
        if VolumeName(ordinals[k]) !in volumes {
          NextIsMissing(ordinals, before, total, k);
          RestIsShared(total, n, done);
          var perUnit := free / remaining;
          if perUnit <= 0 {
            FirstFails(total, n, done);
            return NotEnoughSpace;
          }
          EachGetsOne(total, n, done);
          if ordinals[k] in lvFails {
            return CommandFailed;
          }
          OneMore(missing, before, total, done);
          CreateVolume(VolumeName(ordinals[k]), perUnit);
          remaining := remaining - 1;
          assert Interrupted(ordinals, before, total, done + 1, volumes, free);
        } else {
          NextIsPresent(ordinals, before, total, k);
        }
        if ordinals[k] in laterFails {
          return CommandFailed;
        }
      }
      AllIsGiven(total, n);
      NothingGiven(total);
      return Completed;
    }
  }

  /** The group after k of the missing volumes were created; more than none only if there is enough for all. */
  ghost predicate Interrupted(ordinals: seq<nat>, before: map<string, nat>, total: nat, k: nat,
                              volumes: map<string, nat>, free: int) {
    var missing := Missing(ordinals, before);
    && k <= |missing| && (k > 0 ==> total >= |missing|)
    && volumes == FilledFirst(missing, before, total, k) && free == total - Given(total, |missing|, k)
  }

  lemma NothingYet(ordinals: seq<nat>, volumes: map<string, nat>, total: nat, n: nat)
    ensures Missing(ordinals[..0], volumes) == [] && Given(total, n, 0) == 0
    ensures FilledFirst(Missing(ordinals, volumes), volumes, total, 0) == volumes
  {
  }

  lemma NothingGiven(total: nat)
    ensures Given(total, 0, 0) == 0
  {
  }

  lemma OneMore(missing: seq<nat>, volumes: map<string, nat>, total: nat, k: nat)
    requires k < |missing|
    ensures var n := |missing|;
            && Given(total, n, k + 1) == Given(total, n, k) + Share(total, n, k)
            && FilledFirst(missing, volumes, total, k + 1)
               == FilledFirst(missing, volumes, total, k)[VolumeName(missing[k]) := Share(total, n, k)]
  {
  }

  // ---- Which volumes are missing ----

  lemma {:induction false} MissingGrows(ordinals: seq<nat>, volumes: map<string, nat>, k: nat)
    requires k <= |ordinals|
    ensures Missing(ordinals[..k], volumes) <= Missing(ordinals, volumes)
    ensures k < |ordinals| ==>
              Missing(ordinals[..k + 1], volumes) == Missing(ordinals[..k], volumes)
              + if VolumeName(ordinals[k]) in volumes then [] else [ordinals[k]]
    decreases |ordinals| - k
  {
    if k < |ordinals| {
      assert ordinals[..k + 1][..k] == ordinals[..k];
      MissingGrows(ordinals, volumes, k + 1);
    } else {
      assert ordinals[..k] == ordinals;
    }
  }

  /** Volume names tell ordinals apart, of whatever size. */
  lemma VolumeNamesDiffer(m: nat, n: nat)
    ensures VolumeName(m) == VolumeName(n) <==> m == n
  {
    if VolumeName(m) == VolumeName(n) {
      assert VolumeName(m)[2..] == TwoDigits(m) && VolumeName(n)[2..] == TwoDigits(n);
      TwoDigitsTellApart(m, n);
    }
  }

  /** The volume is mounted under its own name. */
  lemma VolumeIsMounted(hostname: string, ordinal: nat)
    ensures StorageMountPath(hostname, ordinal) == "/mnt/kloigos/" + hostname + "/" + VolumeName(ordinal)
  {
    assert "/" + "cu" == "/cu";
    assert "/mnt/kloigos/" + hostname + "/" + ("cu" + TwoDigits(ordinal))
        == "/mnt/kloigos/" + hostname + ("/" + "cu") + TwoDigits(ordinal);
  }

  lemma TwoDigitsTellApart(m: nat, n: nat)
    requires TwoDigits(m) == TwoDigits(n)
    ensures m == n
  {
    DecimalLength(m);
    DecimalLength(n);
    if m < 100 && n < 100 {
      TwoDigitsInjective(m, n);
    } else {
      ReadDigitsDecimal(m);
      ReadDigitsDecimal(n);
    }
  }

  lemma {:induction false} FilledNames(missing: seq<nat>, volumes: map<string, nat>, free: nat, k: nat, ordinal: nat)
    requires k <= |missing|
    ensures VolumeName(ordinal) in FilledFirst(missing, volumes, free, k)
            <==> VolumeName(ordinal) in volumes || ordinal in missing[..k]
  {
    hide VolumeName, Share;
    if k > 0 {
      FilledNames(missing, volumes, free, k - 1, ordinal);
      VolumeNamesDiffer(ordinal, missing[k - 1]);
      assert missing[..k] == missing[..k - 1] + [missing[k - 1]];
    }
  }

  lemma {:induction false} MissingMembers(ordinals: seq<nat>, volumes: map<string, nat>)
    ensures forall o :: o in Missing(ordinals, volumes) <==> o in ordinals && VolumeName(o) !in volumes
  {
    if ordinals != [] {
      var init, last := ordinals[..|ordinals| - 1], ordinals[|ordinals| - 1];
      MissingMembers(init, volumes);
      assert ordinals == init + [last];
    }
  }

  /** The loop meets the missing volumes in order, each of them once. */
  lemma CreatedSoFar(ordinals: seq<nat>, before: map<string, nat>, total: nat, k: nat)
    requires NoRepeats(ordinals) && k < |ordinals| && |Missing(ordinals[..k], before)| <= |Missing(ordinals, before)|
    ensures VolumeName(ordinals[k]) in FilledFirst(Missing(ordinals, before), before, total,
            |Missing(ordinals[..k], before)|)
            <==> VolumeName(ordinals[k]) in before
  {
    hide VolumeName, Share, FilledFirst;
    var missing, done := Missing(ordinals, before), Missing(ordinals[..k], before);
    MissingGrows(ordinals, before, k);
    assert missing[..|done|] == done;
    FilledNames(missing, before, total, |done|, ordinals[k]);
    MissingMembers(ordinals[..k], before);
    assert ordinals[k] !in ordinals[..k];
  }

  lemma NextIsMissing(ordinals: seq<nat>, before: map<string, nat>, total: nat, k: nat)
    requires NoRepeats(ordinals) && k < |ordinals|
    requires var done := |Missing(ordinals[..k], before)|;
             && done <= |Missing(ordinals, before)|
             && VolumeName(ordinals[k]) !in FilledFirst(Missing(ordinals, before), before, total, done)
    ensures var done := |Missing(ordinals[..k], before)|;
            && done < |Missing(ordinals, before)| && Missing(ordinals, before)[done] == ordinals[k]
            && |Missing(ordinals[..k + 1], before)| == done + 1
  {
    CreatedSoFar(ordinals, before, total, k);
    MissingGrows(ordinals, before, k);
    MissingGrows(ordinals, before, k + 1);
  }

  lemma NextIsPresent(ordinals: seq<nat>, before: map<string, nat>, total: nat, k: nat)
    requires NoRepeats(ordinals) && k < |ordinals|
    requires var done := |Missing(ordinals[..k], before)|;
             && done <= |Missing(ordinals, before)|
             && VolumeName(ordinals[k]) in FilledFirst(Missing(ordinals, before), before, total, done)
    ensures |Missing(ordinals[..k + 1], before)| == |Missing(ordinals[..k], before)|
  {
    CreatedSoFar(ordinals, before, total, k);
    MissingGrows(ordinals, before, k);
  }

  // ---- The shares ----

  /** The first k shares in closed form. */
  lemma {:induction false} GivenClosed(total: nat, n: nat, k: nat)
    requires k <= n && 0 < n
    ensures Given(total, n, k) == k * (total / n) + if k <= n - total % n then 0 else k - (n - total % n)
  {
    if k > 0 {
      GivenClosed(total, n, k - 1);
      assert k * (total / n) == (k - 1) * (total / n) + total / n;
    }
  }

  lemma AllIsGiven(total: nat, n: nat)
    ensures n > 0 ==> Given(total, n, n) == total
  {
    if n > 0 {
      GivenClosed(total, n, n);
      assert total == n * (total / n) + total % n;
    }
  }

  lemma RestClosed(total: nat, n: nat, k: nat, q: nat, r: nat)
    requires k < n && total == n * q + r && r < n
    ensures var given := k * q + if k <= n - r then 0 else k - (n - r);
            total - given == if n - k > r then q * (n - k) + r else (q + 1) * (n - k)
  {
    var m := n - k;
    assert n * q == k * q + m * q;
    assert (q + 1) * m == q * m + m;
  }

  /** What is left after k shares, divided by the volumes left, is the next share. */
  lemma RestIsShared(total: nat, n: nat, k: nat)
    requires k < n
    ensures Given(total, n, k) <= total
    ensures (total - Given(total, n, k)) / (n - k) == Share(total, n, k)
  {
    hide Given;
    GivenClosed(total, n, k);
    RestClosed(total, n, k, total / n, total % n);
    SharedOut(total - Given(total, n, k), n - k, total / n, total % n);
  }

  lemma SharedOut(rest: int, m: nat, q: nat, r: nat)
    requires m > 0 && rest == if m > r then q * m + r else (q + 1) * m
    ensures rest >= 0 && rest / m == if m > r then q else q + 1
  {
    if m > r {
      DivisionIsUnique(rest, m, q, r);
    } else {
      DivisionIsUnique(rest, m, q + 1, 0);
    }
  }

  lemma EnoughForOne(total: nat, n: nat)
    requires n > 0
    ensures total >= n ==> total / n >= 1
    ensures total < n ==> total / n == 0 && total % n == total
  {
    if total < n {
      DivisionIsUnique(total, n, 0, total);
    } else {
      DivisionStep(total, n);
    }
  }

  /** A share of nothing can only be the first one, and means that there are too few extents. */
  lemma FirstFails(total: nat, n: nat, k: nat)
    requires k < n && Share(total, n, k) == 0
    requires k > 0 ==> total >= n
    ensures k == 0 && total < n
  {
    EnoughForOne(total, n);
  }

  lemma EachGetsOne(total: nat, n: nat, k: nat)
    requires k < n && Share(total, n, k) > 0
    requires k > 0 ==> total >= n
    ensures total >= n
    ensures Share(total, n, k) <= total - Given(total, n, k)
  {
    EnoughForOne(total, n);
    RestIsShared(total, n, k);
    QuotientAtMost(total - Given(total, n, k), n - k);
  }

  lemma QuotientAtMost(rest: nat, m: nat)
    requires m > 0
    ensures rest / m <= rest
  {
    assert rest == m * (rest / m) + rest % m;
    if rest / m > 0 {
      MultipleAtLeast(m, rest / m);
    }
  }

  // ---- What a run amounts to ----

  /**
   A successful run leaves every older volume alone and gives the i-th missing one its share; the
   shares differ by at most one, later ones are the larger, and together they are all that was free.
   */
  lemma SharesAreFair(ordinals: seq<nat>, volumes: map<string, nat>, free: nat)
    requires NoRepeats(ordinals) && free >= |Missing(ordinals, volumes)|
    ensures var missing := Missing(ordinals, volumes);
            var filled := Filled(ordinals, volumes, free);
            && (forall name :: name in volumes ==> name in filled && filled[name] == volumes[name])
            && (forall i :: 0 <= i < |missing| ==>
                  var name := VolumeName(missing[i]);
                  name in filled && filled[name] == Share(free, |missing|, i) >= 1)
            && (forall i, j :: 0 <= i < j < |missing| ==>
                  Share(free, |missing|, i) <= Share(free, |missing|, j) <= Share(free, |missing|, i) + 1)
            && (missing != [] ==> Given(free, |missing|, |missing|) == free)
  {
    hide VolumeName;
    var missing := Missing(ordinals, volumes);
    AllIsGiven(free, |missing|);
    MissingMembers(ordinals, volumes);
    MissingNoRepeats(ordinals, volumes);
    FilledValues(missing, volumes, free, |missing|);
    if missing != [] {
      EnoughForOne(free, |missing|);
    }
  }

  lemma {:induction false} MissingNoRepeats(ordinals: seq<nat>, volumes: map<string, nat>)
    requires NoRepeats(ordinals)
    ensures NoRepeats(Missing(ordinals, volumes))
  {
    hide VolumeName;
    if ordinals != [] {
      var init := ordinals[..|ordinals| - 1];
      MissingNoRepeats(init, volumes);
      MissingMembers(init, volumes);
      assert ordinals[|ordinals| - 1] !in init;
    }
  }

  lemma {:induction false} FilledValues(missing: seq<nat>, volumes: map<string, nat>, free: nat, k: nat)
    requires k <= |missing| && NoRepeats(missing)
    requires forall i :: 0 <= i < |missing| ==> VolumeName(missing[i]) !in volumes
    ensures var filled := FilledFirst(missing, volumes, free, k);
            && (forall name :: name in volumes ==> name in filled && filled[name] == volumes[name])
            && (forall i :: 0 <= i < k ==>
                  VolumeName(missing[i]) in filled && filled[VolumeName(missing[i])] == Share(free, |missing|, i))
  {
    hide VolumeName, Share;
    if k > 0 {
      FilledValues(missing, volumes, free, k - 1);
      forall i | 0 <= i < k - 1 ensures VolumeName(missing[i]) != VolumeName(missing[k - 1]) {
        VolumeNamesDiffer(missing[i], missing[k - 1]);
      }
    }
  }

  /** Running the playbook again creates nothing, whatever has become of the free space. */
  lemma RerunCreatesNothing(ordinals: seq<nat>, volumes: map<string, nat>, free: nat, later: nat)
    requires NoRepeats(ordinals) && free >= |Missing(ordinals, volumes)|
    ensures var filled := Filled(ordinals, volumes, free);
            Missing(ordinals, filled) == [] && Filled(ordinals, filled, later) == filled
  {
    hide VolumeName, Share;
    var missing := Missing(ordinals, volumes);
    var filled := Filled(ordinals, volumes, free);
    MissingMembers(ordinals, volumes);
    assert missing[..|missing|] == missing;
    forall o | o in ordinals ensures VolumeName(o) in filled {
      FilledNames(missing, volumes, free, |missing|, o);
    }
    NoneMissing(ordinals, filled);
  }

  lemma {:induction false} NoneMissing(ordinals: seq<nat>, volumes: map<string, nat>)
    requires forall o :: o in ordinals ==> VolumeName(o) in volumes
    ensures Missing(ordinals, volumes) == []
  {
    if ordinals != [] {
      NoneMissing(ordinals[..|ordinals| - 1], volumes);
    }
  }

  // ---- Interrupted runs ----

  /** Dividing what is left among the volumes that are left gives each what it would have got. */
  lemma ShareResumes(total: nat, n: nat, k: nat, i: nat)
    requires k + i < n
    ensures Given(total, n, k) <= total
    ensures Share(total - Given(total, n, k), n - k, i) == Share(total, n, k + i)
  {
    hide Given;
    var q, r, m := total / n, total % n, n - k;
    RestIsShared(total, n, k);
    GivenClosed(total, n, k);
    RestClosed(total, n, k, q, r);
    var rest := total - Given(total, n, k);
    if m > r {
      DivisionIsUnique(rest, m, q, r);
    } else {
      DivisionIsUnique(rest, m, q + 1, 0);
    }
  }

  /** What is missing from a group in which the first k missing volumes were created. */
  lemma {:induction false} StillMissing(ordinals: seq<nat>, volumes: map<string, nat>, free: nat, k: nat, j: nat)
    requires NoRepeats(ordinals) && j <= |ordinals| && k <= |Missing(ordinals, volumes)|
    ensures var half := FilledFirst(Missing(ordinals, volumes), volumes, free, k);
            var sofar := Missing(ordinals[..j], volumes);
            Missing(ordinals[..j], half) == After(sofar, k)
  {
    hide VolumeName, Share, FilledFirst, NoRepeats;
    var missing := Missing(ordinals, volumes);
    var half := FilledFirst(missing, volumes, free, k);
    if j > 0 {
      StillMissing(ordinals, volumes, free, k, j - 1);
      MissingSnoc(ordinals, volumes, j - 1);
      MissingSnoc(ordinals, half, j - 1);
      hide Missing, After;
      var o, sofar := ordinals[j - 1], Missing(ordinals[..j - 1], volumes);
      AfterNone(sofar, Missing(ordinals[..j - 1], half));
      AfterSnoc(sofar, o, k);
      NextInHalf(ordinals, volumes, free, k, j - 1);
    }
  }

  /** The next volume is missing from the half-filled group if it was missing before and is not among the first k. */
  lemma NextInHalf(ordinals: seq<nat>, volumes: map<string, nat>, free: nat, k: nat, j: nat)
    requires NoRepeats(ordinals) && j < |ordinals| && k <= |Missing(ordinals, volumes)|
    ensures VolumeName(ordinals[j]) !in FilledFirst(Missing(ordinals, volumes), volumes, free, k)
            <==> VolumeName(ordinals[j]) !in volumes && |Missing(ordinals[..j], volumes)| >= k
  {
    var o, sofar := ordinals[j], Missing(ordinals[..j], volumes);
    MissingSnoc(ordinals, volumes, j);
    MissingGrows(ordinals, volumes, j + 1);
    hide VolumeName, Share, FilledFirst, NoRepeats, Missing;
    FilledNames(Missing(ordinals, volumes), volumes, free, k, o);
    if VolumeName(o) !in volumes {
      assert Missing(ordinals, volumes)[|sofar|] == o;
      OnlyPlace(ordinals, volumes, |sofar|, k, o);
    }
  }

  /** What follows the first k elements. */
  function After(xs: seq<nat>, k: nat): seq<nat> {
    if |xs| <= k then [] else xs[k..]
  }

  lemma AfterSnoc(xs: seq<nat>, x: nat, k: nat)
    ensures After(xs + [x], k) == After(xs, k) + if |xs| < k then [] else [x]
  {
  }

  lemma AfterNone(xs: seq<nat>, ys: seq<nat>)
    ensures xs + [] == xs && ys + [] == ys
  {
  }

  lemma MissingSnoc(ordinals: seq<nat>, volumes: map<string, nat>, j: nat)
    requires j < |ordinals|
    ensures Missing(ordinals[..j + 1], volumes)
         == Missing(ordinals[..j], volumes) + if VolumeName(ordinals[j]) in volumes then [] else [ordinals[j]]
  {
    hide VolumeName;
    assert ordinals[..j + 1][..j] == ordinals[..j];
  }

  lemma OnlyPlace(ordinals: seq<nat>, volumes: map<string, nat>, i: nat, k: nat, o: nat)
    requires NoRepeats(ordinals)
    requires var missing := Missing(ordinals, volumes); i < |missing| && k <= |missing| && missing[i] == o
    ensures o in Missing(ordinals, volumes)[..k] <==> i < k
  {
    MissingNoRepeats(ordinals, volumes);
    hide VolumeName, Missing;
  }

  lemma {:induction false} FilledResumes(missing: seq<nat>, volumes: map<string, nat>, free: nat, k: nat, i: nat)
    requires k + i <= |missing| && Given(free, |missing|, k) <= free
    ensures FilledFirst(missing[k..], FilledFirst(missing, volumes, free, k), free - Given(free, |missing|, k), i)
         == FilledFirst(missing, volumes, free, k + i)
  {
    hide VolumeName, Share, Given;
    if i > 0 {
      FilledResumes(missing, volumes, free, k, i - 1);
      ShareResumes(free, |missing|, k, i - 1);
    }
  }

  /**
   A run that a failing command cut short loses nothing: running the playbook again completes exactly
   the division that the first run would have made.
   */
  lemma InterruptedRunResumes(ordinals: seq<nat>, before: map<string, nat>, total: nat, k: nat,
                              volumes: map<string, nat>, free: int)
    requires NoRepeats(ordinals) && Interrupted(ordinals, before, total, k, volumes, free)
    requires total >= |Missing(ordinals, before)|
    ensures free >= |Missing(ordinals, volumes)|
    ensures Filled(ordinals, volumes, free) == Filled(ordinals, before, total)
  {
    hide VolumeName, Share, Given, FilledFirst, Missing, NoRepeats, Interrupted;
    var missing := Missing(ordinals, before);
    HalfIsThere(ordinals, before, total, k, volumes, free);
    if k < |missing| {
      RestResumes(missing, before, total, k);
    } else {
      AllIsGiven(total, |missing|);
      NothingGiven(total);
      FilledNone(volumes, free);
    }
  }

  lemma HalfIsThere(ordinals: seq<nat>, before: map<string, nat>, total: nat, k: nat, volumes: map<string, nat>,
      free: int)
    requires NoRepeats(ordinals) && Interrupted(ordinals, before, total, k, volumes, free)
    ensures var missing := Missing(ordinals, before);
            && k <= |missing| && volumes == FilledFirst(missing, before, total, k)
            && free == total - Given(total, |missing|, k) && free >= 0
            && Missing(ordinals, volumes) == missing[k..]
  {
    hide VolumeName, Share, Given, FilledFirst, Missing, NoRepeats;
    StillMissing(ordinals, before, total, k, |ordinals|);
    assert ordinals[..|ordinals|] == ordinals;
    GivenAtMost(total, |Missing(ordinals, before)|, k);
  }

  lemma GivenAtMost(total: nat, n: nat, k: nat)
    requires k <= n
    ensures Given(total, n, k) <= total
  {
    if k < n {
      RestIsShared(total, n, k);
    } else {
      AllIsGiven(total, n);
    }
  }

  lemma RestResumes(missing: seq<nat>, before: map<string, nat>, total: nat, k: nat)
    requires k < |missing| <= total
    ensures var rest := total - Given(total, |missing|, k);
            && rest >= |missing| - k
            && FilledFirst(missing[k..], FilledFirst(missing, before, total, k), rest, |missing| - k)
               == FilledFirst(missing, before, total, |missing|)
  {
    hide VolumeName, Share, Given, FilledFirst;
    EnoughIsLeft(total, |missing|, k);
    FilledResumes(missing, before, total, k, |missing| - k);
  }

  lemma FilledNone(volumes: map<string, nat>, free: nat)
    ensures FilledFirst([], volumes, free, 0) == volumes
  {
  }

  lemma EnoughIsLeft(total: nat, n: nat, k: nat)
    requires k < n <= total
    ensures total - Given(total, n, k) >= n - k
  {
    hide Given;
    GivenClosed(total, n, k);
    RestClosed(total, n, k, total / n, total % n);
    EnoughForOne(total, n);
    AtLeastOnce(total / n, n - k);
  }

  lemma AtLeastOnce(q: nat, m: nat)
    requires q >= 1 && m > 0
    ensures q * m >= m && (q + 1) * m >= m
  {
    MultipleAtLeast(q, m);
    MultipleAtLeast(q + 1, m);
  }
}
