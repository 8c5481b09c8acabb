/**
 The health checks of ready servers (kloigos/workers/health.py) and the alert table they keep
 (kloigos/repos/postgres.py). For any history of probes the alerts of a host are a summary of it.
 */
module Health {
  import opened Collections
  import opened Repository
  import opened Tables

  import Protocol
  import ProtocolAdmin

  datatype Severity = Warning | Critical

  datatype AlertStatus = Open | Resolved(at: nat)

  /** An alert about one unhealthy server; its type and resource type are always the same. */
  datatype Alert = Alert(hostname: string, severity: Severity, status: AlertStatus, firstSeen: nat, lastSeen: nat)

  /** What happened after a probe that did not raise: its health was stored, and perhaps the alert call raised. */
  datatype ProbeResult = ProbeResult(health: HealthStatus, alertRaises: bool)

  /** One probe that reached the alert table. */
  datatype Probe = Probe(hostname: string, health: HealthStatus, time: nat)

  function SeverityOf(health: HealthStatus): Severity {
    if health == Unreachable then Critical else Warning
  }

  function Opened(probe: Probe): Alert {
    Alert(probe.hostname, SeverityOf(probe.health), Open, probe.time, probe.time)
  }

  function Touched(alert: Alert, probe: Probe): Alert {
    alert.(severity := SeverityOf(probe.health), lastSeen := probe.time)
  }

  function Closed(alert: Alert, time: nat): Alert {
    alert.(status := Resolved(time), lastSeen := time)
  }

  predicate OpenFor(alert: Alert, hostname: string) {
    alert.hostname == hostname && alert.status == Open
  }

  /** The rows after each open alert of the host was rewritten. */
  function Rewrite(alerts: seq<Alert>, hostname: string, rewritten: Alert -> Alert): (r: seq<Alert>)
    ensures |r| == |alerts|
    ensures forall i :: 0 <= i < |r| ==> r[i] == if OpenFor(alerts[i], hostname) then rewritten(alerts[i])
            else alerts[i]
  {
    seq(|alerts|, i requires 0 <= i < |alerts| => if OpenFor(alerts[i], hostname) then rewritten(alerts[i])
        else alerts[i])
  }

  /** What one probe does to the alert table. */
  function Noted(alerts: seq<Alert>, probe: Probe): seq<Alert> {
    if probe.health == Healthy then Rewrite(alerts, probe.hostname, alert => Closed(alert, probe.time))
    else if exists i :: 0 <= i < |alerts| && OpenFor(alerts[i], probe.hostname)
    then Rewrite(alerts, probe.hostname, alert => Touched(alert, probe))
    else alerts + [Opened(probe)]
  }

  /** The alert table after these probes, in this order. */
  function Logged(probes: seq<Probe>): seq<Alert> {
    if probes == [] then [] else Noted(Logged(probes[..|probes| - 1]), probes[|probes| - 1])
  }

  function AlertsOf(alerts: seq<Alert>, hostname: string): seq<Alert> {
    if alerts == [] then [] else
    var last := alerts[|alerts| - 1];
    AlertsOf(alerts[..|alerts| - 1], hostname) + if last.hostname == hostname then [last] else []
  }

  function HistoryOf(probes: seq<Probe>, hostname: string): seq<Probe> {
    if probes == [] then [] else
    var last := probes[|probes| - 1];
    HistoryOf(probes[..|probes| - 1], hostname) + if last.hostname == hostname then [last] else []
  }

  // ---- The reference: maximal unhealthy runs ----

  /** An unhealthy run begins with this probe. */
  predicate StartsRun(history: seq<Probe>, i: nat)
    requires i < |history|
  {
    history[i].health != Healthy && (i > 0 ==> history[i - 1].health == Healthy)
  }

  /** The positions at which unhealthy runs begin, in order. */
  function RunStarts(history: seq<Probe>): (starts: seq<nat>)
    ensures forall k :: 0 <= k < |starts| ==> starts[k] < |history|
  {
    if history == [] then [] else
    var last := |history| - 1;
    RunStarts(history[..last]) + if StartsRun(history, last) then [last] else []
  }

  /** The first healthy probe from i on, or the end of the history. */
  function RunEnd(history: seq<Probe>, i: nat): (end: nat)
    requires i <= |history|
    ensures i <= end <= |history|
    ensures forall j :: i <= j < end ==> history[j].health != Healthy
    ensures end < |history| ==> history[end].health == Healthy
    decreases |history| - i
  {
    if i == |history| || history[i].health == Healthy then i else RunEnd(history, i + 1)
  }

  /** The alert that describes the run from i: seen first at its start, as severe as its latest probe. */
  function Summary(history: seq<Probe>, i: nat): Alert
    requires i < |history| && history[i].health != Healthy
  {
    var end := RunEnd(history, i);
    Alert(history[i].hostname,
          SeverityOf(history[end - 1].health),
          if end < |history| then Resolved(history[end].time) else Open,
          history[i].time,
          if end < |history| then history[end].time else history[end - 1].time)
  }

  function Summaries(history: seq<Probe>): (alerts: seq<Alert>)
    ensures |alerts| == |RunStarts(history)|
    ensures forall k :: 0 <= k < |alerts| ==>
              var i := RunStarts(history)[k];
              history[i].health != Healthy && alerts[k] == Summary(history, i)
  {
    StartsAreUnhealthy(history);
    var starts := RunStarts(history);
    seq(|starts|, k requires 0 <= k < |starts| => Summary(history, starts[k]))
  }

  lemma {:induction false} StartsAreUnhealthy(history: seq<Probe>)
    ensures forall k :: 0 <= k < |RunStarts(history)| ==> StartsRun(history, RunStarts(history)[k])
    ensures forall i :: 0 <= i < |history| && StartsRun(history, i) ==> i in RunStarts(history)
    ensures forall j, k :: 0 <= j < k < |RunStarts(history)| ==> RunStarts(history)[j] < RunStarts(history)[k]
  {
    if history != [] {
      var init := history[..|history| - 1];
      StartsAreUnhealthy(init);
      forall i | 0 <= i < |init| ensures StartsRun(history, i) == StartsRun(init, i) {
      }
    }
  }

  // ---- One cycle of the job ----

  class HealthCheck {
    const repo: Repo
    var alerts: seq<Alert>
    /** Every probe that reached the alert table, in order. */
    ghost var log: seq<Probe>

    ghost predicate Valid()
      reads this
    {
      alerts == Logged(log)
    }

    constructor (repo: Repo)
      ensures this.repo == repo && alerts == [] && log == [] && Valid()
    {
      this.repo, alerts, log := repo, [], [];
    }

    /** `open_or_touch_alert`: an insert that on conflict with the open row of the host updates that row. */
    method OpenOrTouchAlert(probe: Probe)
      requires probe.health != Healthy
      modifies this`alerts
      ensures alerts == Noted(old(alerts), probe)
    {
      if exists i :: 0 <= i < |alerts| && OpenFor(alerts[i], probe.hostname) {
        alerts := Rewrite(alerts, probe.hostname, alert => Touched(alert, probe));
      } else {
        alerts := alerts + [Opened(probe)];
      }
    }

    /** `resolve_alert`: every open row of the host. */
    method ResolveAlert(probe: Probe)
      requires probe.health == Healthy
      modifies this`alerts
      ensures alerts == Noted(old(alerts), probe)
    {
      alerts := Rewrite(alerts, probe.hostname, alert => Closed(alert, probe.time));
    }

    /** The body of the loop for one server: an exception leaves out all that follows it. */
    method Check(hostname: string, results: map<string, ProbeResult>, time: nat)
      requires Valid() && hostname in repo.servers
      modifies this, repo`servers
      ensures Valid() && log == old(log) + ProbesOf([hostname], old(repo.servers), results, time)
      ensures repo.servers == old(repo.servers)[hostname := Checked(hostname, old(repo.servers)[hostname], results)]
    {
      assert [hostname][..0] == [];
      if repo.servers[hostname].status == Ready && hostname in results {
        var probe := Probe(hostname, results[hostname].health, time);
        repo.UpdateServerHealth(hostname, probe.health);
        if results[hostname].alertRaises {
          return;
        }
        if probe.health == Healthy {
          ResolveAlert(probe);
        } else {
          OpenOrTouchAlert(probe);
        }
        assert (log + [probe])[..|log|] == log;
        log := log + [probe];
      }
    }

    /**
     `run_server_health_check`: the ready servers in the given order. A probe without a result is one
     that raised; its server is passed over. The log holds the probes that reached the alert table.
     */
    method Run(order: seq<string>, results: map<string, ProbeResult>, time: nat)
      requires Valid() && NoRepeats(order) && ToSet(order) == repo.servers.Keys
      modifies this, repo`servers
      ensures Valid() && log == old(log) + ProbesOf(order, old(repo.servers), results, time)
      ensures repo.servers == map h | h in old(repo.servers) :: Checked(h, old(repo.servers)[h], results)
      ensures forall h :: h in old(repo.servers) && old(repo.servers)[h].status == Ready && h in results ==>
                            repo.servers[h] == old(repo.servers)[h].(health := results[h].health)
      ensures forall h :: h in old(repo.servers) && (old(repo.servers)[h].status != Ready || h !in results) ==>
                            repo.servers[h] == old(repo.servers)[h]
    {
      hide Valid, Checked, ProbesOf, NoRepeats;
      ghost var before := repo.servers;
      assert forall h :: h in before <==> h in order;
      NoProbes(order, before, results, time);
      for k := 0 to |order|
        invariant Valid() && log == old(log) + ProbesOf(order[..k], before, results, time)
        invariant repo.servers.Keys == before.Keys
        invariant forall h :: h in before ==>
                    repo.servers[h] == if h in order[..k] then Checked(h, before[h], results) else before[h]
      {
        var hostname := order[k];
        NotSeen(order, k);
        assert hostname in order;
        assert order[..k + 1] == order[..k] + [hostname];
        ProbesOfSnoc(order[..k], hostname, before, repo.servers, results, time);
        Check(hostname, results, time);
      }
      assert order[..|order|] == order;
      CheckedMeans(results);
    }
  }

  /** A checked server has the health of its probe, whether or not the alert was stored. */
  function Checked(hostname: string, server: Server, results: map<string, ProbeResult>): Server {
    if server.status == Ready && hostname in results then server.(health := results[hostname].health) else server
  }

  lemma CheckedMeans(results: map<string, ProbeResult>)
    ensures forall h, server: Server :: server.status == Ready && h in results ==>
                                          Checked(h, server, results) == server.(health := results[h].health)
    ensures forall h, server: Server :: server.status != Ready || h !in results ==>
                                          Checked(h, server, results) == server
  {
  }

  /** The probes of a cycle that reach the alert table. */
  function ProbesOf(order: seq<string>, servers: map<string, Server>, results: map<string, ProbeResult>,
      time: nat): seq<Probe> {
    if order == [] then [] else
    var h := order[|order| - 1];
    ProbesOf(order[..|order| - 1], servers, results, time)
    + if h in servers && servers[h].status == Ready && h in results && !results[h].alertRaises
      then [Probe(h, results[h].health, time)] else []
  }

  /** A cycle changes no more than health, so it keeps the invariant of the allocation protocol. */
  lemma CycleKeepsInv(s: Protocol.State, results: map<string, ProbeResult>)
    requires Protocol.Inv(s)
    ensures Protocol.Inv(s.(db := s.db.(servers := map h | h in s.db.servers :: Checked(h, s.db.servers[h], results))))
  {
    hide Protocol.Inv;
    ProtocolAdmin.HealthKeepsInv(s, map h | h in s.db.servers :: Checked(h, s.db.servers[h], results));
  }

  lemma NoProbes(order: seq<string>, servers: map<string, Server>, results: map<string, ProbeResult>, time: nat)
    ensures ProbesOf(order[..0], servers, results, time) == []
  {
  }

  lemma NotSeen(order: seq<string>, k: nat)
    requires NoRepeats(order) && k < |order|
    ensures order[k] !in order[..k]
  {
  }

  lemma ProbesOfSnoc(order: seq<string>, hostname: string, servers: map<string, Server>, now: map<string, Server>,
                     results: map<string, ProbeResult>, time: nat)
    requires hostname in servers && hostname in now && now[hostname] == servers[hostname]
    ensures ProbesOf(order + [hostname], servers, results, time)
         == ProbesOf(order, servers, results, time) + ProbesOf([hostname], now, results, time)
  {
    assert (order + [hostname])[..|order|] == order;
    assert [hostname][..0] == [];
  }

  // ---- The table summarises the history ----

  lemma {:induction false} AlertsOfRewritten(alerts: seq<Alert>, hostname: string, other: string, f: Alert -> Alert)
    requires forall a :: f(a).hostname == a.hostname
    ensures AlertsOf(Rewrite(alerts, hostname, f), other)
         == if other == hostname then Rewrite(AlertsOf(alerts, other), hostname, f) else AlertsOf(alerts, other)
  {
    if alerts != [] {
      var init, last := alerts[..|alerts| - 1], alerts[|alerts| - 1];
      AlertsOfRewritten(init, hostname, other, f);
      assert alerts == init + [last];
      RewriteSnoc(init, last, hostname, f);
      RewriteSnoc(AlertsOf(init, other), last, hostname, f);
      hide Rewrite;
      assert Rewrite(alerts, hostname, f)[..|init|] == Rewrite(init, hostname, f);
      assert AlertsOf(init, other) + [] == AlertsOf(init, other);
    }
  }

  lemma RewriteSnoc(alerts: seq<Alert>, last: Alert, hostname: string, f: Alert -> Alert)
    ensures Rewrite(alerts + [last], hostname, f)
         == Rewrite(alerts, hostname, f) + [if OpenFor(last, hostname) then f(last) else last]
  {
  }

  lemma {:induction false} OpenShows(alerts: seq<Alert>, hostname: string)
    ensures (exists i :: 0 <= i < |alerts| && OpenFor(alerts[i], hostname))
            <==> exists i :: 0 <= i < |AlertsOf(alerts, hostname)| && OpenFor(AlertsOf(alerts, hostname)[i], hostname)
  {
    if alerts != [] {
      var init, last := alerts[..|alerts| - 1], alerts[|alerts| - 1];
      OpenShows(init, hostname);
      var rows, some := AlertsOf(alerts, hostname), AlertsOf(init, hostname);
      if i :| 0 <= i < |init| && OpenFor(init[i], hostname) {
        var j :| 0 <= j < |some| && OpenFor(some[j], hostname);
        assert OpenFor(rows[j], hostname) && OpenFor(alerts[i], hostname);
      } else if OpenFor(last, hostname) {
        assert OpenFor(rows[|rows| - 1], hostname) && OpenFor(alerts[|alerts| - 1], hostname);
      } else {
        assert forall j :: 0 <= j < |rows| ==> j < |some| || rows[j] == last;
      }
    }
  }

  /** A host's alerts depend on its own probes only. */
  lemma {:induction false} AlertsDependOnOwnProbes(probes: seq<Probe>, hostname: string)
    ensures AlertsOf(Logged(probes), hostname) == Logged(HistoryOf(probes, hostname))
  {
    if probes != [] {
      var init, last := probes[..|probes| - 1], probes[|probes| - 1];
      AlertsDependOnOwnProbes(init, hostname);
      NotedFor(Logged(init), last, hostname);
      var own := HistoryOf(init, hostname);
      assert (own + [last])[..|own|] == own && own + [] == own;
    }
  }

  lemma NotedFor(alerts: seq<Alert>, probe: Probe, hostname: string)
    ensures AlertsOf(Noted(alerts, probe), hostname)
         == if probe.hostname == hostname then Noted(AlertsOf(alerts, hostname), probe) else AlertsOf(alerts, hostname)
  {
    OpenShows(alerts, hostname);
    if probe.health == Healthy {
      AlertsOfRewritten(alerts, probe.hostname, hostname, alert => Closed(alert, probe.time));
    } else if exists i :: 0 <= i < |alerts| && OpenFor(alerts[i], probe.hostname) {
      AlertsOfRewritten(alerts, probe.hostname, hostname, alert => Touched(alert, probe));
    } else {
      assert (alerts + [Opened(probe)])[..|alerts|] == alerts;
    }
  }

  /** All probes are of one host. */
  predicate OneHost(history: seq<Probe>, hostname: string) {
    forall i :: 0 <= i < |history| ==> history[i].hostname == hostname
  }

  lemma {:induction false} HistoryIsOwn(probes: seq<Probe>, hostname: string)
    ensures OneHost(HistoryOf(probes, hostname), hostname)
  {
    if probes != [] {
      HistoryIsOwn(probes[..|probes| - 1], hostname);
    }
  }

  lemma {:induction false} RunEndGrows(history: seq<Probe>, probe: Probe, i: nat)
    requires i <= |history|
    ensures RunEnd(history + [probe], i)
         == if RunEnd(history, i) < |history| then RunEnd(history, i)
            else if probe.health == Healthy then |history| else |history| + 1
    decreases |history| - i
  {
    if i < |history| && history[i].health != Healthy {
      RunEndGrows(history, probe, i + 1);
    } else if i == |history| {
      assert (history + [probe])[i] == probe;
    }
  }

  lemma RunStartsGrow(history: seq<Probe>, probe: Probe)
    ensures RunStarts(history + [probe])
         == RunStarts(history)
            + if probe.health != Healthy && (history == [] || history[|history| - 1].health == Healthy)
              then [|history|] else []
  {
    assert (history + [probe])[..|history|] == history;
  }

  /** The run that is still going on. */
  predicate Ongoing(history: seq<Probe>, i: nat)
    requires i < |history|
  {
    RunEnd(history, i) == |history|
  }

  lemma {:induction false} UnhealthyIsOngoing(history: seq<Probe>)
    requires history != [] && history[|history| - 1].health != Healthy
    ensures var starts := RunStarts(history); starts != [] && Ongoing(history, starts[|starts| - 1])
  {
    hide RunStarts;
    var init, last := history[..|history| - 1], history[|history| - 1];
    assert history == init + [last];
    RunStartsGrow(init, last);
    if init == [] || init[|init| - 1].health == Healthy {
      assert RunEnd(history, |init|) == |history|;
    } else {
      UnhealthyIsOngoing(init);
      var starts := RunStarts(init);
      RunEndGrows(init, last, starts[|starts| - 1]);
    }
  }

  /** The last probe is unhealthy exactly when a run is still going on, and then it is the last one. */
  lemma OngoingIffUnhealthy(history: seq<Probe>)
    ensures var starts := RunStarts(history);
            && (history != [] && history[|history| - 1].health != Healthy ==>
                  starts != [] && Ongoing(history, starts[|starts| - 1]))
            && (history == [] || history[|history| - 1].health == Healthy ==>
                  forall k :: 0 <= k < |starts| ==> !Ongoing(history, starts[k]))
            && (forall k :: 0 <= k < |starts| - 1 ==> !Ongoing(history, starts[k]))
  {
    StartsAreUnhealthy(history);
    hide RunStarts;
    var starts := RunStarts(history);
    forall k | 0 <= k < |starts| - 1 ensures !Ongoing(history, starts[k]) {
      assert starts[k] < starts[k + 1];
      assert StartsRun(history, starts[k + 1]) && history[starts[k + 1] - 1].health == Healthy;
    }
    if history != [] && history[|history| - 1].health != Healthy {
      UnhealthyIsOngoing(history);
    }
  }

  /** What one more probe does to a summary. */
  lemma SummaryGrows(history: seq<Probe>, probe: Probe, i: nat)
    requires i < |history| && history[i].health != Healthy
    ensures Summary(history + [probe], i)
         == if !Ongoing(history, i) then Summary(history, i)
            else if probe.health == Healthy then Closed(Summary(history, i), probe.time)
            else Touched(Summary(history, i), probe)
    ensures Summary(history, i).status == Open <==> Ongoing(history, i)
  {
    RunEndGrows(history, probe, i);
  }

  lemma SummariesGrow(history: seq<Probe>, probe: Probe, hostname: string)
    requires OneHost(history + [probe], hostname)
    ensures Summaries(history + [probe]) == Noted(Summaries(history), probe)
  {
    hide RunEnd, Ongoing, Summary, StartsRun, RunStarts;
    var before, after := Summaries(history), Summaries(history + [probe]);
    var starts := RunStarts(history);
    RunStartsGrow(history, probe);
    OngoingIffUnhealthy(history);
    assert probe.hostname == hostname by {
      assert (history + [probe])[|history|] == probe;
    }
    forall k | 0 <= k < |starts|
      ensures OpenFor(before[k], hostname) <==> Ongoing(history, starts[k])
      ensures after[k] == if !Ongoing(history, starts[k]) then before[k]
                          else if probe.health == Healthy then Closed(before[k], probe.time)
                              else Touched(before[k], probe)
    {
      SummaryGrows(history, probe, starts[k]);
      SummaryIsOwn(history + [probe], history, starts[k], hostname);
    }
    if probe.health != Healthy && (history == [] || history[|history| - 1].health == Healthy) {
      NewRun(history, probe);
    } else if probe.health != Healthy {
      assert OpenFor(before[|starts| - 1], hostname);
    }
  }

  lemma SummaryIsOwn(history: seq<Probe>, init: seq<Probe>, i: nat, hostname: string)
    requires OneHost(history, hostname) && init <= history && i < |init| && init[i].health != Healthy
    ensures Summary(init, i).hostname == hostname
  {
  }

  lemma NewRun(history: seq<Probe>, probe: Probe)
    requires probe.health != Healthy
    ensures Summary(history + [probe], |history|) == Opened(probe)
  {
    assert RunEnd(history + [probe], |history|) == |history| + 1;
  }

  lemma {:induction false} LoggedIsSummaries(history: seq<Probe>, hostname: string)
    requires OneHost(history, hostname)
    ensures Logged(history) == Summaries(history)
  {
    if history != [] {
      var init, last := history[..|history| - 1], history[|history| - 1];
      LoggedIsSummaries(init, hostname);
      assert history == init + [last];
      SummariesGrow(init, last, hostname);
    }
  }

  /**
   The row describes the maximal unhealthy run from i: opened with its first probe, critical exactly if
   its last probe was not answered at all, and resolved by the healthy probe that ended it, if any.
   */
  ghost predicate Describes(row: Alert, history: seq<Probe>, i: nat) {
    exists end :: i < end <= |history| && EndsAt(row, history, i, end)
  }

  ghost predicate EndsAt(row: Alert, history: seq<Probe>, i: nat, end: nat)
    requires i < end <= |history|
  {
    && (forall j :: i <= j < end ==> history[j].health != Healthy) && (i > 0 ==> history[i - 1].health == Healthy)
    && row.hostname == history[i].hostname && row.firstSeen == history[i].time
    && (row.severity == Critical <==> history[end - 1].health == Unreachable)
    && if end < |history|
       then history[end].health == Healthy && row.status == Resolved(history[end].time)
            && row.lastSeen == history[end].time
       else row.status == Open && row.lastSeen == history[end - 1].time
  }

  lemma SummaryDescribes(history: seq<Probe>, i: nat)
    requires i < |history| && StartsRun(history, i)
    ensures Describes(Summary(history, i), history, i)
  {
    var end := RunEnd(history, i);
    assert end != i;
    assert EndsAt(Summary(history, i), history, i, end);
  }

  /**
   One row for each maximal unhealthy run of the history, in order, and each row describes its run. A row
   is open exactly when the last probe was unhealthy, and it is the last row.
   */
  ghost predicate RowsOfRuns(rows: seq<Alert>, history: seq<Probe>, hostname: string) {
    var starts := RunStarts(history);
    && |rows| == |starts|
    && (forall k :: 0 <= k < |rows| ==> rows[k].hostname == hostname && Describes(rows[k], history, starts[k]))
    && (forall i :: 0 <= i < |history| ==>
          (i in starts <==> history[i].health != Healthy && (i > 0 ==> history[i - 1].health == Healthy)))
    && (forall j, k :: 0 <= j < k < |starts| ==> starts[j] < starts[k])
    && (forall k :: 0 <= k < |rows| - 1 ==> rows[k].status.Resolved?)
    && (history != [] && history[|history| - 1].health != Healthy <==>
          rows != [] && rows[|rows| - 1].status == Open)
  }

  /** For every history of probes, of any servers in any order: the rows of a host are those of its runs. */
  lemma AlertTableSummarises(probes: seq<Probe>, hostname: string)
    ensures RowsOfRuns(AlertsOf(Logged(probes), hostname), HistoryOf(probes, hostname), hostname)
  {
    hide RowsOfRuns;
    AlertsDependOnOwnProbes(probes, hostname);
    HistoryIsOwn(probes, hostname);
    LoggedIsSummaries(HistoryOf(probes, hostname), hostname);
    SummariesDescribe(HistoryOf(probes, hostname), hostname);
  }

  lemma SummariesDescribe(history: seq<Probe>, hostname: string)
    requires OneHost(history, hostname)
    ensures RowsOfRuns(Summaries(history), history, hostname)
  {
    hide RunEnd, RunStarts, Summary, Ongoing, Describes;
    var rows, starts := Summaries(history), RunStarts(history);
    OngoingIffUnhealthy(history);
    StartsAreUnhealthy(history);
    forall k | 0 <= k < |starts|
      ensures rows[k].status == Open <==> Ongoing(history, starts[k])
      ensures rows[k].hostname == hostname && Describes(rows[k], history, starts[k])
    {
      OpenIffOngoing(history, starts[k]);
      SummaryDescribes(history, starts[k]);
      SummaryIsOwn(history, history, starts[k], hostname);
    }
  }

  lemma OpenIffOngoing(history: seq<Probe>, i: nat)
    requires i < |history| && history[i].health != Healthy
    ensures Summary(history, i).status == Open <==> Ongoing(history, i)
  {
  }

  /** Picking out one host keeps exactly its probes, or its rows, as often as they occur. */
  lemma {:induction false} HistoryPicks(probes: seq<Probe>, hostname: string, p: Probe)
    ensures multiset(HistoryOf(probes, hostname))[p] == if p.hostname == hostname then multiset(probes)[p] else 0
  {
    if probes != [] {
      HistoryPicks(probes[..|probes| - 1], hostname, p);
      assert probes == probes[..|probes| - 1] + [probes[|probes| - 1]];
    }
  }

  lemma {:induction false} AlertsPick(alerts: seq<Alert>, hostname: string, a: Alert)
    ensures multiset(AlertsOf(alerts, hostname))[a] == if a.hostname == hostname then multiset(alerts)[a] else 0
  {
    if alerts != [] {
      AlertsPick(alerts[..|alerts| - 1], hostname, a);
      assert alerts == alerts[..|alerts| - 1] + [alerts[|alerts| - 1]];
    }
  }

  /** Which probes of a cycle reach the alert table: of ready servers, with a result, and no raise before it. */
  lemma {:induction false} ProbesReach(order: seq<string>, servers: map<string, Server>,
                                       results: map<string, ProbeResult>, time: nat, p: Probe)
    ensures p in ProbesOf(order, servers, results, time) <==>
            p.hostname in order && p.hostname in servers && servers[p.hostname].status == Ready
            && p.hostname in results && !results[p.hostname].alertRaises
            && p.health == results[p.hostname].health && p.time == time
  {
    if order != [] {
      ProbesReach(order[..|order| - 1], servers, results, time, p);
      assert order == order[..|order| - 1] + [order[|order| - 1]];
    }
  }

  /** The index on open alerts is never hit: no host has two of them. */
  lemma OneOpenAlertEach(probes: seq<Probe>, i: nat, j: nat)
    requires i < j < |Logged(probes)| && Logged(probes)[i].status == Open && Logged(probes)[j].status == Open
    ensures Logged(probes)[i].hostname != Logged(probes)[j].hostname
  {
    var hostname := Logged(probes)[i].hostname;
    if Logged(probes)[j].hostname == hostname {
      AlertTableSummarises(probes, hostname);
      TwoShow(Logged(probes), hostname, i, j);
    }
  }

  lemma {:induction false} TwoShow(alerts: seq<Alert>, hostname: string, i: nat, j: nat)
    requires i < j < |alerts| && OpenFor(alerts[i], hostname) && OpenFor(alerts[j], hostname)
    ensures exists k :: 0 <= k < |AlertsOf(alerts, hostname)| - 1 && AlertsOf(alerts, hostname)[k].status == Open
  {
    var init := alerts[..|alerts| - 1];
    var rows := AlertsOf(alerts, hostname);
    if j < |init| {
      TwoShow(init, hostname, i, j);
      var k :| 0 <= k < |AlertsOf(init, hostname)| - 1 && AlertsOf(init, hostname)[k].status == Open;
      assert rows[k].status == Open;
    } else {
      assert OpenFor(init[i], hostname);
      OpenShows(init, hostname);
      var k :| 0 <= k < |AlertsOf(init, hostname)| && OpenFor(AlertsOf(init, hostname)[k], hostname);
      assert rows[k].status == Open;
    }
  }
}
