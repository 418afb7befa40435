/**
 Readiness: one judgment per kind, and two views of the same walk. The gate stops at the first failing critical
 kind; the debug view judges every kind and summarizes. The two must agree about what blocks traffic.
 */
module Readiness {
  import opened Options
  import opened Verdicts
  import opened Sorting

  // ----- one probe

  datatype AcquireError = NotConfiguredError | AcquireFailed(n: nat)

  /** What leasing yields: an error, or a lease whose liveness check gives `live`. */
  datatype Lease = Lease(refused: Option<AcquireError>, live: Option<nat>)

  datatype Cause = LiveFailed(n: nat) | LeaseFailed(n: nat) | NoCheck | NotStarted

  /** A slot's sealed description. `live` and `acquire` are None when the kind has no such step; a liveness check
      that passes gives None as its error. */
  datatype Probe = Probe(name: string, critical: bool, disabled: bool, absent: bool, perTenant: bool,
                         live: Option<Option<nat>>, acquire: Option<Lease>)

  datatype Event = Acquired | CheckedLease | Snapshot | Released

  datatype Judgment = Judgment(status: Status, err: Option<Cause>, events: seq<Event>)

  function NotConfiguredStatus(p: Probe): Status {
    if p.perTenant then PerTenant else NotConfigured
  }

  /** `judge`: lease-independent liveness first, then the lease, its liveness and its release. */
  method Judge(p: Probe) returns (j: Judgment)
    ensures j == Judged(p)
  {
    if p.disabled {
      return Judgment(Disabled, None, []);
    }
    if p.absent {
      return Judgment(NotConfiguredStatus(p), None, [Snapshot]);
    }
    if p.live.Some? && p.live.value.Some? {
      return Judgment(Unhealthy, Some(LiveFailed(p.live.value.value)), [Snapshot]);
    }
    if p.acquire.None? {
      if p.live.None? {
        return Judgment(Unhealthy, Some(NoCheck), [Snapshot]);
      }
      return Judgment(Healthy, None, [Snapshot]);
    }
    var lease := p.acquire.value;
    if lease.refused.Some? {
      if lease.refused.value.NotConfiguredError? {
        return Judgment(NotConfiguredStatus(p), None, [Snapshot]);
      }
      return Judgment(Unhealthy, Some(LeaseFailed(lease.refused.value.n)), [Snapshot]);
    }
    var events := [Acquired, CheckedLease];
    if lease.live.Some? {
      events := events + [Snapshot];
      events := events + [Released];
      return Judgment(Unhealthy, Some(LiveFailed(lease.live.value)), events);
    }
    events := events + [Snapshot];
    events := events + [Released];
    return Judgment(Healthy, None, events);
  }

  /** Whether the probe gets as far as a lease it holds. */
  predicate Leases(p: Probe) {
    && !p.disabled && !p.absent && (p.live.Some? ==> p.live.value.None?)
    && p.acquire.Some? && p.acquire.value.refused.None?
  }

  /** The first error on the way: the lease-independent check, the missing check, the lease, its liveness. */
  function CauseOf(p: Probe): Option<Cause> {
    if p.disabled || p.absent then None
    else if p.live.Some? && p.live.value.Some? then Some(LiveFailed(p.live.value.value))
    else if p.acquire.None? then (if p.live.None? then Some(NoCheck) else None)
    else if p.acquire.value.refused.Some? then
      var e := p.acquire.value.refused.value; if e.AcquireFailed? then Some(LeaseFailed(e.n)) else None
    else if p.acquire.value.live.Some? then Some(LiveFailed(p.acquire.value.live.value))
    else None
  }

  /** The verdict by its cause: unhealthy exactly with an error, and otherwise absent, disabled or healthy. */
  function Judged(p: Probe): (j: Judgment)
    ensures j.status.Unhealthy? <==> j.err.Some?
    ensures Leases(p) ==> j.events == [Acquired, CheckedLease, Snapshot, Released]
    ensures !Leases(p) ==> Acquired !in j.events && Released !in j.events
  {
    var status :=
      if CauseOf(p).Some? then Unhealthy
      else if p.disabled then Disabled
      else if p.absent || (p.acquire.Some? && p.acquire.value.refused.Some?) then NotConfiguredStatus(p)
      else Healthy;
    var events :=
      if p.disabled then [] else if Leases(p) then [Acquired, CheckedLease, Snapshot, Released] else [Snapshot];
    Judgment(status, CauseOf(p), events)
  }

  const LEASED := [Acquired, CheckedLease, Snapshot, Released]

  /** The verdict on the probe's own fields. A disabled or absent kind is judged as such. Otherwise the first of these
      decides: its liveness check, a kind without any check, the lease, the lease's liveness. */
  lemma VerdictIs(p: Probe)
    ensures p.disabled ==> Judged(p) == Judgment(Disabled, None, [])
    ensures !p.disabled && p.absent ==>
              Judged(p).status == (if p.perTenant then PerTenant else NotConfigured) && Judged(p).err.None?
    ensures !p.disabled && !p.absent ==>
              var live, lease := if p.live.Some? then p.live.value else None, p.acquire;
              match live
              case Some(e) => Judged(p) == Judgment(Unhealthy, Some(LiveFailed(e)), [Snapshot])
              case None =>
                if lease.None? then
                  Judged(p) == Judgment(if p.live.Some? then Healthy else Unhealthy,
                                        if p.live.Some? then None else Some(NoCheck), [Snapshot])
                else
                  match lease.value.refused
                  case Some(AcquireFailed(e)) => Judged(p) == Judgment(Unhealthy, Some(LeaseFailed(e)), [Snapshot])
                  case Some(NotConfiguredError) =>
                    Judged(p) == Judgment(if p.perTenant then PerTenant else NotConfigured, None, [Snapshot])
                  case None =>
                    match lease.value.live
                    case Some(e) => Judged(p) == Judgment(Unhealthy, Some(LiveFailed(e)), LEASED)
                    case None => Judged(p) == Judgment(Healthy, None, LEASED)
  {
  }

  /** A kind is healthy only if it has a check, and every check it has passed. */
  lemma HealthyMeansChecked(p: Probe)
    ensures Judged(p).status.Healthy? ==>
              && !p.disabled && !p.absent && (p.live.Some? || p.acquire.Some?)
              && (p.live.Some? ==> p.live.value.None?)
              && (p.acquire.Some? ==> p.acquire.value.refused.None? && p.acquire.value.live.None?)
  {
  }

  /** A check that fails is never passed over. */
  lemma FailedCheckIsUnhealthy(p: Probe)
    requires !p.disabled && !p.absent
    ensures p.live.Some? && p.live.value.Some? ==> Judged(p).status.Unhealthy?
    ensures p.live.None? && p.acquire.None? ==> Judged(p).status.Unhealthy?
    ensures p.acquire.Some? && p.acquire.value.refused.Some? && p.acquire.value.refused.value.AcquireFailed? ==>
              Judged(p).status.Unhealthy?
    ensures Leases(p) && p.acquire.value.live.Some? ==> Judged(p).status.Unhealthy?
  {
  }

  // ----- the walk

  datatype Health = Health(name: string, status: Status, critical: bool, err: Option<Cause>)

  function Run(p: Probe): Health {
    Health(p.name, Judged(p).status, p.critical, Judged(p).err)
  }

  /** What keeps traffic out: an unhealthy critical kind. */
  predicate Blocks(h: Health) {
    h.status.Unhealthy? && h.critical
  }

  /** Every kind's result in slot order; a slot without a description renders nothing. */
  function FullReport(slots: seq<Option<Probe>>): seq<Health> {
    if slots == [] then []
    else FullReport(slots[..|slots| - 1]) + (if slots[|slots| - 1].Some? then [Run(slots[|slots| - 1].value)] else [])
  }

  lemma {:induction false} FullReportPrefix(slots: seq<Option<Probe>>, n: nat)
    requires n <= |slots|
    ensures FullReport(slots[..n]) <= FullReport(slots)
    decreases |slots|
  {
    if n == |slots| {
      assert slots[..n] == slots;
    } else {
      FullReportPrefix(slots[..|slots| - 1], n);
      assert slots[..|slots| - 1][..n] == slots[..n];
    }
  }

  /** A report holds one result per described slot: its name, its criticality and its verdict. */
  lemma {:induction false} ReportIsOfSlots(slots: seq<Option<Probe>>, h: Health)
    ensures h in FullReport(slots) <==>
            exists i :: 0 <= i < |slots| && slots[i].Some? &&
                        var p := slots[i].value;
                        h == Health(p.name, Judged(p).status, p.critical, Judged(p).err)
  {
    if slots != [] {
      var front := slots[..|slots| - 1];
      ReportIsOfSlots(front, h);
      assert forall i | 0 <= i < |front| :: slots[i] == front[i];
      if i :| 0 <= i < |slots| && slots[i].Some? && h == Run(slots[i].value) && i < |front| {
        assert front[i].Some?;
      }
    }
  }

  method Walk(slots: seq<Option<Probe>>, stopAtCritical: bool) returns (report: seq<Health>, blocking: Option<Health>)
    ensures report <= FullReport(slots)
    ensures blocking.None? ==> report == FullReport(slots) && (stopAtCritical ==> forall h | h in report :: !Blocks(h))
    ensures blocking.Some? ==>
              && stopAtCritical && report != [] && report[|report| - 1] == blocking.value && Blocks(blocking.value)
              && forall h | h in report[..|report| - 1] :: !Blocks(h)
  {
    report := [];
    for i := 0 to |slots|
      invariant report == FullReport(slots[..i])
      invariant stopAtCritical ==> forall h | h in report :: !Blocks(h)
    {
      assert slots[..i + 1][..i] == slots[..i];
      FullReportPrefix(slots, i + 1);
      if slots[i].None? {
        continue;
      }
      var p := slots[i].value;
      var j := Judge(p);
      var h := Health(p.name, j.status, p.critical, j.err);
      ghost var before := report;
      report := report + [h];
      if stopAtCritical && IsFailing(h.status) && h.critical {
        assert report[..|report| - 1] == before;
        return report, Some(h);
      }
    }
    assert slots[..|slots|] == slots;
    return report, None;
  }

  /** `/ready`'s judgment: closed before start, else the walk up to the first failing critical kind. */
  method Gate(started: bool, slots: seq<Option<Probe>>) returns (report: seq<Health>, blocking: Option<Health>)
    ensures !started ==> report == [] && blocking.Some? && Blocks(blocking.value)
    ensures started ==> (blocking.Some? <==> exists h :: h in FullReport(slots) && Blocks(h))
    ensures started ==> report == FullReport(slots)[..FirstBlocking(FullReport(slots))]
    ensures started && blocking.Some? ==> report != [] && report[|report| - 1] == blocking.value
  {
    if !started {
      return [], Some(Health("readiness", Unhealthy, true, Some(NotStarted)));
    }
    report, blocking := Walk(slots, true);
    FirstBlockingIs(FullReport(slots), report, blocking.Some?);
  }

  /** The gate of a started application blocks exactly when some critical slot is judged unhealthy. */
  method GateOfSlots(slots: seq<Option<Probe>>) returns (blocked: bool)
    ensures blocked <==> exists i :: 0 <= i < |slots| && slots[i].Some? && slots[i].value.critical
                                     && Judged(slots[i].value).status.Unhealthy?
  {
    var report, blocking := Gate(true, slots);
    blocked := blocking.Some?;
    if h :| h in FullReport(slots) && Blocks(h) {
      ReportIsOfSlots(slots, h);
    }
    if i :| 0 <= i < |slots| && slots[i].Some? && slots[i].value.critical && Judged(slots[i].value).status.Unhealthy? {
      ReportIsOfSlots(slots, Run(slots[i].value));
    }
  }

  /** The length of the report up to and including its first blocking kind. */
  function FirstBlocking(report: seq<Health>): (n: nat)
    ensures n <= |report|
  {
    if report == [] then 0 else if Blocks(report[0]) then 1 else 1 + FirstBlocking(report[1..])
  }

  lemma {:induction false} FirstBlockingIs(full: seq<Health>, report: seq<Health>, blocked: bool)
    requires report <= full
    requires blocked ==>
               report != [] && Blocks(report[|report| - 1]) && forall h | h in report[..|report| - 1] :: !Blocks(h)
    requires !blocked ==> report == full && forall h | h in report :: !Blocks(h)
    ensures report == full[..FirstBlocking(full)]
    ensures blocked <==> exists h :: h in full && Blocks(h)
  {
    if full == [] {
    } else if blocked && |report| == 1 {
      assert report == [full[0]];
    } else {
      assert !Blocks(report[0]) by {
        if blocked {
          assert report[..|report| - 1][0] == report[0];
        }
      }
      if blocked {
        var rest, before := report[1..][..|report| - 2], report[..|report| - 1];
        assert forall i | 0 <= i < |rest| :: rest[i] == before[i + 1];
        assert report[1..][|report| - 2] == report[|report| - 1];
      }
      FirstBlockingIs(full[1..], report[1..], blocked);
      assert full == [full[0]] + full[1..] && report == [report[0]] + report[1..];
      if h :| h in full && Blocks(h) {
        assert h in full[1..];
      }
    }
  }

  // ----- the debug view

  datatype Component = Component(status: Status, critical: bool)

  /** The component map a report renders to: of two kinds with one name the later stands. */
  function Components(report: seq<Health>): map<string, Component> {
    if report == [] then map[]
    else
      var last := report[|report| - 1];
      Components(report[..|report| - 1])[last.name := Component(last.status, last.critical)]
  }

  method DebugComponents(report: seq<Health>) returns (components: map<string, Component>)
    ensures components == Components(report)
  {
    components := map[];
    for i := 0 to |report|
      invariant components == Components(report[..i])
    {
      components := components[report[i].name := Component(report[i].status, report[i].critical)];
      assert report[..i + 1][..i] == report[..i];
    }
    assert report[..|report|] == report;
  }

  datatype Overall = OverallCritical | OverallDegraded | OverallHealthy | OverallUnknown

  datatype Summary = Summary(total: nat, healthy: nat, errors: nat, critical: nat, overall: Overall)

  predicate IsReadyEquivalent(s: Status) {
    s.Healthy? || s.NotConfigured? || s.Disabled? || s.PerTenant?
  }

  function FailingNames(components: map<string, Component>): set<string> {
    set n | n in components && components[n].status.Unhealthy?
  }

  function BlockingNames(components: map<string, Component>): set<string> {
    set n | n in components && components[n].status.Unhealthy? && components[n].critical
  }

  /** The summary, said of the components alone; unknown is reachable only without any. */
  function OverallOf(components: map<string, Component>): Overall {
    if BlockingNames(components) != {} then OverallCritical
    else if FailingNames(components) != {} then OverallDegraded
    else if components != map[] then OverallHealthy
    else OverallUnknown
  }

  method Tally(c: Component, healthy: nat, errors: nat, critical: nat) returns (h: nat, e: nat, k: nat)
    ensures h == healthy + (if c.status.Unhealthy? then 0 else 1)
    ensures e == errors + (if c.status.Unhealthy? then 1 else 0)
    ensures k == critical + (if c.status.Unhealthy? && c.critical then 1 else 0)
  {
    h, e, k := healthy, errors, critical;
    if IsFailing(c.status) {
      e := e + 1;
      if c.critical {
        k := k + 1;
      }
    } else if IsReadyEquivalent(c.status) {
      h := h + 1;
    }
  }

  /** The names among `names` that satisfy `test`, one by one. */
  function Count(components: map<string, Component>, names: seq<string>, test: Component -> bool): nat
    requires forall i | 0 <= i < |names| :: names[i] in components
  {
    if names == [] then 0
    else
      var last := names[|names| - 1];
      Count(components, names[..|names| - 1], test) + (if test(components[last]) then 1 else 0)
  }

  lemma {:induction false} CountIsCardinality(components: map<string, Component>, names: seq<string>,
                                              test: Component -> bool, s: set<string>)
    requires Distinct(names) && forall i | 0 <= i < |names| :: names[i] in components
    requires forall n :: n in s <==> n in names && test(components[n])
    ensures Count(components, names, test) == |s|
    decreases |names|
  {
    if names == [] {
      assert s == {};
    } else {
      var front, last := names[..|names| - 1], names[|names| - 1];
      assert names == front + [last];
      forall n ensures n in s - {last} <==> n in front && test(components[n]) {
        assert n in names <==> n in front || n == last;
      }
      CountIsCardinality(components, front, test, s - {last});
    }
  }

  predicate ComponentFails(c: Component) {
    c.status.Unhealthy?
  }

  predicate ComponentBlocks(c: Component) {
    c.status.Unhealthy? && c.critical
  }

  predicate AnyComponent(c: Component) {
    true
  }

  method CountHealth(components: map<string, Component>) returns (healthy: nat, errors: nat, critical: nat)
    ensures healthy + errors == |components|
    ensures errors == |FailingNames(components)| && critical == |BlockingNames(components)|
  {
    var names := SortedKeys(components.Keys);
    healthy, errors, critical := 0, 0, 0;
    for i := 0 to |names|
      invariant healthy + errors == i
      invariant errors == Count(components, names[..i], ComponentFails)
      invariant critical == Count(components, names[..i], ComponentBlocks)
    {
      assert names[..i + 1][..i] == names[..i];
      healthy, errors, critical := Tally(components[names[i]], healthy, errors, critical);
    }
    assert names[..|names|] == names;
    CountsAreCardinalities(components, names);
  }

  lemma CountsAreCardinalities(components: map<string, Component>, names: seq<string>)
    requires Distinct(names) && forall n :: n in names <==> n in components
    ensures |names| == |components|
    ensures Count(components, names, ComponentFails) == |FailingNames(components)|
    ensures Count(components, names, ComponentBlocks) == |BlockingNames(components)|
  {
    CountIsCardinality(components, names, ComponentFails, FailingNames(components));
    CountIsCardinality(components, names, ComponentBlocks, BlockingNames(components));
    CountIsCardinality(components, names, AnyComponent, components.Keys);
    CountAll(components, names);
  }

  lemma {:induction false} CountAll(components: map<string, Component>, names: seq<string>)
    requires forall i | 0 <= i < |names| :: names[i] in components
    ensures Count(components, names, AnyComponent) == |names|
  {
    if names != [] {
      CountAll(components, names[..|names| - 1]);
    }
  }

  method SummarizeHealth(components: map<string, Component>) returns (s: Summary)
    ensures s.total == |components| && s.healthy + s.errors == s.total
    ensures s.errors == |FailingNames(components)| && s.critical == |BlockingNames(components)|
    ensures s.overall == OverallOf(components)
  {
    var healthy, errors, critical := CountHealth(components);
    var overall :=
      if critical > 0 then OverallCritical
      else if errors > 0 then OverallDegraded
      else if |components| > 0 && healthy == |components| then OverallHealthy
      else OverallUnknown;
    s := Summary(|components|, healthy, errors, critical, overall);
  }

  // ----- the two views agree

  /** No later kind of the same name hides result `i`. */
  ghost predicate Shown(report: seq<Health>, i: nat)
    requires i < |report|
  {
    forall j | i < j < |report| :: report[j].name != report[i].name
  }

  lemma {:induction false} ComponentsShow(report: seq<Health>, name: string)
    ensures name in Components(report) <==>
            exists i :: 0 <= i < |report| && report[i].name == name && Shown(report, i)
    ensures forall i | 0 <= i < |report| && report[i].name == name && Shown(report, i) ::
              name in Components(report) && Components(report)[name] == Component(report[i].status, report[i].critical)
    decreases |report|
  {
    if report != [] {
      var n := |report| - 1;
      var front := report[..n];
      ComponentsShow(front, name);
      if report[n].name == name {
        assert Shown(report, n);
      } else {
        forall i | 0 <= i < n && report[i].name == name ensures Shown(report, i) <==> Shown(front, i) {}
      }
    }
  }

  /** The debug summary is critical exactly when some blocking kind is not hidden behind a later kind of its name. */
  lemma SummaryCriticalIff(report: seq<Health>)
    ensures OverallOf(Components(report)).OverallCritical? <==>
            exists i :: 0 <= i < |report| && Blocks(report[i]) && Shown(report, i)
  {
    var cs := Components(report);
    if n :| n in BlockingNames(cs) {
      ComponentsShow(report, n);
      var i :| 0 <= i < |report| && report[i].name == n && Shown(report, i);
      assert Blocks(report[i]);
    }
    if i :| 0 <= i < |report| && Blocks(report[i]) && Shown(report, i) {
      ComponentsShow(report, report[i].name);
      assert report[i].name in BlockingNames(cs);
    }
  }

  /** Some kind shown fails. */
  ghost predicate SomeShownFails(report: seq<Health>) {
    exists i :: 0 <= i < |report| && report[i].status.Unhealthy? && Shown(report, i)
  }

  lemma FailingIsShown(report: seq<Health>)
    ensures FailingNames(Components(report)) != {} <==> SomeShownFails(report)
  {
    var cs := Components(report);
    if n :| n in FailingNames(cs) {
      ComponentsShow(report, n);
      var i :| 0 <= i < |report| && report[i].name == n && Shown(report, i);
      assert report[i].status.Unhealthy?;
    }
    if i :| 0 <= i < |report| && report[i].status.Unhealthy? && Shown(report, i) {
      ComponentsShow(report, report[i].name);
      assert report[i].name in FailingNames(cs);
    }
  }

  lemma BlockingIsFailing(cs: map<string, Component>)
    ensures BlockingNames(cs) <= FailingNames(cs)
  {
  }

  /** The other verdicts: degraded when something shown fails and the summary is not critical, healthy when something is
      shown and nothing fails, unknown only for an empty report. */
  lemma SummaryIs(report: seq<Health>)
    ensures var o := OverallOf(Components(report));
            && (o.OverallUnknown? <==> report == [])
            && (o.OverallHealthy? <==> report != [] && !SomeShownFails(report))
            && (o.OverallDegraded? <==> SomeShownFails(report) && !o.OverallCritical?)
  {
    FailingIsShown(report);
    BlockingIsFailing(Components(report));
    if report != [] {
      assert report[|report| - 1].name in Components(report);
    }
  }

  /** No two described slots have one name. */
  ghost predicate DistinctNames(slots: seq<Option<Probe>>) {
    forall i, j | 0 <= i < j < |slots| && slots[i].Some? && slots[j].Some? :: slots[i].value.name != slots[j].value.name
  }

  ghost predicate AllShown(report: seq<Health>) {
    forall i, j | 0 <= i < j < |report| :: report[j].name != report[i].name
  }

  lemma {:induction false} ReportNames(slots: seq<Option<Probe>>, h: Health)
    ensures h in FullReport(slots) ==> exists i :: 0 <= i < |slots| && slots[i].Some? && slots[i].value.name == h.name
  {
    if slots != [] {
      var front := slots[..|slots| - 1];
      ReportNames(front, h);
      if i :| 0 <= i < |front| && front[i].Some? && front[i].value.name == h.name {
        assert slots[i] == front[i];
      }
    }
  }

  lemma {:induction false} DistinctSlotsDistinctReport(slots: seq<Option<Probe>>)
    requires DistinctNames(slots)
    ensures AllShown(FullReport(slots))
  {
    if slots != [] {
      var n := |slots| - 1;
      var front := FullReport(slots[..n]);
      DistinctSlotsDistinctReport(slots[..n]);
      if slots[n].Some? {
        assert FullReport(slots) == front + [Run(slots[n].value)];
        forall i | 0 <= i < |front| ensures front[i].name != slots[n].value.name {
          ReportNames(slots[..n], front[i]);
        }
      }
    }
  }

  /** With distinct names the summary of the full report is critical exactly when some kind blocks. */
  lemma ViewsAgree(slots: seq<Option<Probe>>)
    requires DistinctNames(slots)
    ensures var r := FullReport(slots); OverallOf(Components(r)).OverallCritical? <==> exists h :: h in r && Blocks(h)
  {
    var report := FullReport(slots);
    DistinctSlotsDistinctReport(slots);
    SummaryCriticalIff(report);
    if h :| h in report && Blocks(h) {
      var i :| 0 <= i < |report| && report[i] == h;
      assert Shown(report, i);
    }
  }

  /** Both doors over one started application: a critical summary always means a closed gate, and with distinct
      names a closed gate means a critical summary. */
  method BothViews(slots: seq<Option<Probe>>) returns (blocking: Option<Health>, summary: Summary)
    ensures summary.overall.OverallCritical? ==> blocking.Some?
    ensures DistinctNames(slots) ==> (summary.overall.OverallCritical? <==> blocking.Some?)
  {
    var gated, full, components, none;
    gated, blocking := Gate(true, slots);
    full, none := Walk(slots, false);
    components := DebugComponents(full);
    summary := SummarizeHealth(components);
    SummaryCriticalIff(full);
    if DistinctNames(slots) {
      ViewsAgree(slots);
    }
  }

  /** Without distinct names they can: a healthy kind behind a failing critical one of the same name hides it from
      the summary while the gate still blocks. */
  lemma SameNameHidesBlocking(report: seq<Health>, h: Health, later: Health)
    requires Blocks(h) && !Blocks(later) && h.name == later.name && forall r | r in report :: !Blocks(r)
    ensures var all := report + [h, later];
            !OverallOf(Components(all)).OverallCritical? && exists r :: r in all && Blocks(r)
  {
    var all := report + [h, later];
    SummaryCriticalIff(all);
    assert all[|report|] == h && all[|report| + 1] == later;
    forall i | 0 <= i < |all| && Blocks(all[i]) ensures !Shown(all, i) {
      if i < |report| {
        assert all[i] == report[i];
      }
    }
  }
}
