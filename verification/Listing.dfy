/** snapshot.go and the completeness flags of checks.go: listing only what an enabled check reads, with
    events filtered by the server, changes nothing an enabled check reports. */
module Listing {
  import opened Base
  import opened Findings

  /** A listed object; what a check reads in it stays abstract. */
  datatype Resource = Resource(name: string, body: string)

  datatype Event = Event(
    warning: bool, involvedKind: string, involvedName: string, reason: string, message: string,
    lastTimestamp: Time, eventTime: Time, created: Time)

  /** What the API server answers to each List call: the items, or an error. */
  datatype Cluster = Cluster(
    pods: Option<seq<Resource>>, events: Option<seq<Event>>,
    deployments: Option<seq<Resource>>, statefulSets: Option<seq<Resource>>, daemonSets: Option<seq<Resource>>,
    services: Option<seq<Resource>>, pvcs: Option<seq<Resource>>, hpas: Option<seq<Resource>>)

  const NOTHING_LISTED := Cluster(None, None, None, None, None, None, None, None)

  function Warnings(events: seq<Event>): (r: seq<Event>)
    ensures forall i :: 0 <= i < |r| ==> r[i].warning
  {
    if events == [] then []
    else (if events[0].warning then [events[0]] else []) + Warnings(events[1..])
  }

  /** The answer to a List with field selector type=Warning. */
  function Filtered(events: Option<seq<Event>>): Option<seq<Event>> {
    if events.None? then None else Some(Warnings(events.value))
  }

  function NeedsPods(c: Checks): bool {
    c.pods || c.resourceSpecs || c.services || c.logs || c.resourceUsage
  }

  /** The snapshot of one poll: a field is None until its listing succeeds. */
  class Snapshot {
    var pods: Option<seq<Resource>>
    var events: Option<seq<Event>>
    var deployments: Option<seq<Resource>>
    var statefulSets: Option<seq<Resource>>
    var daemonSets: Option<seq<Resource>>
    var services: Option<seq<Resource>>
    var pvcs: Option<seq<Resource>>
    var hpas: Option<seq<Resource>>

    constructor ()
      ensures Listed() == NOTHING_LISTED
    {
      pods, events, deployments, statefulSets, daemonSets := None, None, None, None, None;
      services, pvcs, hpas := None, None, None;
    }

    function Listed(): Cluster
      reads this
    {
      Cluster(pods, events, deployments, statefulSets, daemonSets, services, pvcs, hpas)
    }

    /** listSnapshot. */
    method ListSnapshot(c: Checks, api: Cluster)
      requires Listed() == NOTHING_LISTED
      modifies this
      ensures Listed() == Gated(c, api)
    {
      ListPodsAndEvents(c, api);
      ListWorkloads(c, api);
      ListTheRest(c, api);
    }

    method ListPodsAndEvents(c: Checks, api: Cluster)
      requires pods.None? && events.None?
      modifies this`pods, this`events
      ensures pods == If(NeedsPods(c), api.pods) && events == If(c.events, Filtered(api.events))
    {
      if NeedsPods(c) && api.pods.Some? {
        pods := api.pods;
      }
      if c.events {
        var warnings := Filtered(api.events);
        if warnings.Some? {
          events := warnings;
        }
      }
    }

    method ListWorkloads(c: Checks, api: Cluster)
      requires deployments.None? && statefulSets.None? && daemonSets.None?
      modifies this`deployments, this`statefulSets, this`daemonSets
      ensures deployments == If(c.workloads, api.deployments)
      ensures statefulSets == If(c.workloads, api.statefulSets)
      ensures daemonSets == If(c.workloads, api.daemonSets)
    {
      if !c.workloads {
        return;
      }
      if api.deployments.Some? {
        deployments := api.deployments;
      }
      if api.statefulSets.Some? {
        statefulSets := api.statefulSets;
      }
      if api.daemonSets.Some? {
        daemonSets := api.daemonSets;
      }
    }

    method ListTheRest(c: Checks, api: Cluster)
      requires services.None? && pvcs.None? && hpas.None?
      modifies this`services, this`pvcs, this`hpas
      ensures services == If(c.services, api.services)
      ensures pvcs == If(c.pvcs, api.pvcs)
      ensures hpas == If(c.scaling, api.hpas)
    {
      if c.services && api.services.Some? {
        services := api.services;
      }
      if c.pvcs && api.pvcs.Some? {
        pvcs := api.pvcs;
      }
      if c.scaling && api.hpas.Some? {
        hpas := api.hpas;
      }
    }
  }

  function If<T>(c: bool, o: Option<T>): Option<T> {
    if c then o else None
  }

  function Gated(c: Checks, api: Cluster): Cluster {
    Cluster(If(NeedsPods(c), api.pods), If(c.events, Filtered(api.events)),
            If(c.workloads, api.deployments), If(c.workloads, api.statefulSets), If(c.workloads, api.daemonSets),
            If(c.services, api.services), If(c.pvcs, api.pvcs), If(c.scaling, api.hpas))
  }

  // ----- the checks -----

  datatype CheckKind =
    | Pods | ResourceSpecs | Events | Workloads | Services | PVCs | Scaling | Logs | ResourceUsage | CustomResource

  predicate IsEnabled(c: Checks, kind: CheckKind) {
    match kind
    case Pods => c.pods
    case ResourceSpecs => c.resourceSpecs
    case Events => c.events
    case Workloads => c.workloads
    case Services => c.services
    case PVCs => c.pvcs
    case Scaling => c.scaling
    case Logs => c.logs
    case ResourceUsage => c.resourceUsage
    case CustomResource => c.customResource
  }

  /** Findings and the completeness flag. */
  datatype Verdict = Verdict(findings: seq<Finding>, complete: bool)

  /** What a check finds in complete inputs. The rules over single objects stay abstract; usage and custom
      resources also read answers of their own: the metrics (None without a metrics client, then None on
      an error) and the discovered resources (likewise). */
  datatype Rules = Rules(
    pods: seq<Resource> -> seq<Finding>, specs: seq<Resource> -> seq<Finding>, logs: seq<Resource> -> seq<Finding>,
    deployments: seq<Resource> -> seq<Finding>, statefulSets: seq<Resource> -> seq<Finding>,
    daemonSets: seq<Resource> -> seq<Finding>,
    services: (seq<Resource>, seq<Resource>) -> seq<Finding>,
    pvcs: seq<Resource> -> seq<Finding>, hpas: seq<Resource> -> seq<Finding>,
    usage: (seq<Resource>, seq<Resource>) -> seq<Finding>, metrics: Option<Option<seq<Resource>>>,
    custom: seq<Resource> -> seq<Finding>, discovered: Option<Option<seq<Resource>>>,
    event: Event -> Finding)

  function EventLastSeen(e: Event): Time {
    if e.lastTimestamp != ZERO_TIME then e.lastTimestamp
    else if e.eventTime != ZERO_TIME then e.eventTime
    else e.created
  }

  predicate Relevant(e: Event, now: Time, lookback: int) {
    e.warning && now - EventLastSeen(e) <= lookback
  }

  function EventFindings(rules: Rules, now: Time, lookback: int, events: seq<Event>): seq<Finding> {
    if events == [] then []
    else (if Relevant(events[0], now, lookback) then [rules.event(events[0])] else [])
         + EventFindings(rules, now, lookback, events[1..])
  }

  /** The loop of checkEvents. */
  method CheckEvents(rules: Rules, now: Time, lookback: int, events: seq<Event>) returns (findings: seq<Finding>)
    ensures findings == EventFindings(rules, now, lookback, events)
  {
    hide EventFindings;
    findings := [];
    assert events[0..] == events;
    for i := 0 to |events|
      invariant findings + EventFindings(rules, now, lookback, events[i..])
        == EventFindings(rules, now, lookback, events)
    {
      NextEvent(rules, now, lookback, events, i);
      if !events[i].warning {
        continue;
      }
      var lastSeen := EventLastSeen(events[i]);
      if now - lastSeen > lookback {
        continue;
      }
      findings := findings + [rules.event(events[i])];
    }
    NoEvents(rules, now, lookback, events[|events|..]);
  }

  lemma NextEvent(rules: Rules, now: Time, lookback: int, events: seq<Event>, i: nat)
    requires i < |events|
    ensures EventFindings(rules, now, lookback, events[i..])
         == (if Relevant(events[i], now, lookback) then [rules.event(events[i])] else [])
            + EventFindings(rules, now, lookback, events[i + 1..])
  {
    assert events[i..][0] == events[i] && events[i..][1..] == events[i + 1..];
  }

  lemma NoEvents(rules: Rules, now: Time, lookback: int, events: seq<Event>)
    requires events == []
    ensures EventFindings(rules, now, lookback, events) == []
  {
  }

  function Part(rule: seq<Resource> -> seq<Finding>, items: Option<seq<Resource>>): seq<Finding> {
    if items.Some? then rule(items.value) else []
  }

  /** A check that needs one listing: its findings, or an empty incomplete result. */
  function NeedsOne(rule: seq<Resource> -> seq<Finding>, items: Option<seq<Resource>>): Verdict {
    Verdict(Part(rule, items), items.Some?)
  }

  function Check(kind: CheckKind, rules: Rules, now: Time, lookback: int, snap: Cluster): Verdict {
    match kind
    case Pods => NeedsOne(rules.pods, snap.pods)
    case ResourceSpecs => NeedsOne(rules.specs, snap.pods)
    case Logs => NeedsOne(rules.logs, snap.pods)
    case PVCs => NeedsOne(rules.pvcs, snap.pvcs)
    case Scaling => NeedsOne(rules.hpas, snap.hpas)
    case Events =>
      if snap.events.Some? then Verdict(EventFindings(rules, now, lookback, snap.events.value), true)
      else Verdict([], false)
    case Workloads =>
      Verdict(Part(rules.deployments, snap.deployments) + Part(rules.statefulSets, snap.statefulSets)
              + Part(rules.daemonSets, snap.daemonSets),
              snap.deployments.Some? && snap.statefulSets.Some? && snap.daemonSets.Some?)
    case Services =>
      if snap.services.Some? && snap.pods.Some? then Verdict(rules.services(snap.services.value, snap.pods.value), true)
      else Verdict([], false)
    case ResourceUsage =>
      if rules.metrics.None? then Verdict([], true)
      else if rules.metrics.value.None? || snap.pods.None? then Verdict([], false)
      else Verdict(rules.usage(snap.pods.value, rules.metrics.value.value), true)
    case CustomResource =>
      if rules.discovered.None? then Verdict([], true)
      else if rules.discovered.value.None? then Verdict([], false)
      else Verdict(rules.custom(rules.discovered.value.value), true)
  }

  /** The check drops what the server would have dropped. */
  lemma {:induction false} FilterIsInvisible(rules: Rules, now: Time, lookback: int, events: seq<Event>)
    ensures EventFindings(rules, now, lookback, Warnings(events)) == EventFindings(rules, now, lookback, events)
  {
    if events != [] {
      FilterIsInvisible(rules, now, lookback, events[1..]);
      var rest := Warnings(events[1..]);
      if events[0].warning {
        assert Warnings(events)[1..] == rest && Warnings(events)[0] == events[0];
      } else {
        assert Warnings(events) == rest;
      }
    }
  }

  /** For every configuration and every answer of the server, each enabled check reports the same findings and
      the same completeness as on a full, unfiltered listing. */
  lemma GatedListingPreservesMeaning(c: Checks, kind: CheckKind, rules: Rules, now: Time, lookback: int, api: Cluster)
    requires IsEnabled(c, kind)
    ensures Check(kind, rules, now, lookback, Gated(c, api)) == Check(kind, rules, now, lookback, api)
  {
    if kind == Events && api.events.Some? {
      FilterIsInvisible(rules, now, lookback, api.events.value);
    }
  }

  /** A poll whose listing was abandoned reports nothing and completes nothing that reads the cluster. */
  lemma AbandonedListingIsIncomplete(kind: CheckKind, rules: Rules, now: Time, lookback: int)
    requires kind != CustomResource && !(kind == ResourceUsage && rules.metrics.None?)
    ensures Check(kind, rules, now, lookback, NOTHING_LISTED) == Verdict([], false)
  {
  }

  // ----- what is listed, and which events count -----

  /** A resource is listed only if an enabled check reads it. */
  lemma GatedListsOnlyNeeded(c: Checks, api: Cluster)
    ensures var listed := Gated(c, api);
      && (listed.pods.Some? ==> c.pods || c.resourceSpecs || c.services || c.logs || c.resourceUsage)
      && (listed.events.Some? ==> c.events)
      && (listed.deployments.Some? || listed.statefulSets.Some? || listed.daemonSets.Some? ==> c.workloads)
      && (listed.services.Some? ==> c.services) && (listed.pvcs.Some? ==> c.pvcs) && (listed.hpas.Some? ==> c.scaling)
  {
  }

  /** The server returns exactly the warnings, in order: each position of the answer is a warning of the list,
      and the positions of all warnings occur in turn. */
  lemma {:induction false} FilterKeepsWarnings(events: seq<Event>, e: Event)
    ensures e in Warnings(events) <==> e in events && e.warning
    ensures multiset(Warnings(events))[e] == if e.warning then multiset(events)[e] else 0
  {
    if events != [] {
      FilterKeepsWarnings(events[1..], e);
      assert events == [events[0]] + events[1..];
    }
  }

  /** A warning counts while its last timestamp, or without one its event time, or without both its creation,
      lies at most the lookback back. */
  predicate Recent(e: Event, now: Time, lookback: int) {
    && e.warning
    && (e.lastTimestamp != ZERO_TIME ==> now - e.lastTimestamp <= lookback)
    && (e.lastTimestamp == ZERO_TIME && e.eventTime != ZERO_TIME ==> now - e.eventTime <= lookback)
    && (e.lastTimestamp == ZERO_TIME && e.eventTime == ZERO_TIME ==> now - e.created <= lookback)
  }

  /** The event check makes one finding for each recent warning, in the order of the events. */
  lemma {:induction false} EventsReportedExactly(rules: Rules, now: Time, lookback: int, a: seq<Event>, e: Event,
                                                 b: seq<Event>)
    ensures EventFindings(rules, now, lookback, a + [e] + b)
         == EventFindings(rules, now, lookback, a)
            + (if Recent(e, now, lookback) then [rules.event(e)] else [])
            + EventFindings(rules, now, lookback, b)
  {
    var all := a + [e] + b;
    if a == [] {
      assert all[0] == e && all[1..] == b;
    } else {
      assert all[0] == a[0] && all[1..] == a[1..] + [e] + b;
      EventsReportedExactly(rules, now, lookback, a[1..], e, b);
    }
  }

  /** A complete verdict holds what the check's own rule finds in its own listings, and, the workloads apart, an
      incomplete one holds nothing. Without a metrics or a dynamic client the check is complete and empty. */
  lemma VerdictsExactly(kind: CheckKind, rules: Rules, now: Time, lookback: int, snap: Cluster)
    ensures var v := Check(kind, rules, now, lookback, snap);
      && (!v.complete && kind != Workloads ==> v.findings == [])
      && (v.complete ==>
            match kind
            case Pods => snap.pods.Some? && v.findings == rules.pods(snap.pods.value)
            case ResourceSpecs => snap.pods.Some? && v.findings == rules.specs(snap.pods.value)
            case Logs => snap.pods.Some? && v.findings == rules.logs(snap.pods.value)
            case PVCs => snap.pvcs.Some? && v.findings == rules.pvcs(snap.pvcs.value)
            case Scaling => snap.hpas.Some? && v.findings == rules.hpas(snap.hpas.value)
            case Events => snap.events.Some? && v.findings == EventFindings(rules, now, lookback, snap.events.value)
            case Services =>
              && snap.services.Some? && snap.pods.Some?
              && v.findings == rules.services(snap.services.value, snap.pods.value)
            case Workloads => snap.deployments.Some? && snap.statefulSets.Some? && snap.daemonSets.Some?
            case ResourceUsage =>
              if rules.metrics == None then v.findings == []
              else
                && snap.pods.Some? && rules.metrics.value.Some?
                && v.findings == rules.usage(snap.pods.value, rules.metrics.value.value)
            case CustomResource =>
              if rules.discovered == None then v.findings == []
              else rules.discovered.value.Some? && v.findings == rules.custom(rules.discovered.value.value))
  {
  }

  /** A workload listing that failed takes its own findings away and makes the check incomplete, no more. */
  lemma WorkloadsInPart(rules: Rules, now: Time, lookback: int, snap: Cluster)
    ensures var v := Check(Workloads, rules, now, lookback, snap);
      && (v.complete <==> snap.deployments.Some? && snap.statefulSets.Some? && snap.daemonSets.Some?)
      && (snap.deployments.Some? && snap.statefulSets.None? && snap.daemonSets.None? ==>
            v.findings == rules.deployments(snap.deployments.value))
      && (snap.deployments.None? && snap.statefulSets.Some? && snap.daemonSets.None? ==>
            v.findings == rules.statefulSets(snap.statefulSets.value))
      && (snap.deployments.None? && snap.statefulSets.None? && snap.daemonSets.Some? ==>
            v.findings == rules.daemonSets(snap.daemonSets.value))
      && (v.complete ==>
            v.findings == rules.deployments(snap.deployments.value) + rules.statefulSets(snap.statefulSets.value)
                          + rules.daemonSets(snap.daemonSets.value))
  {
  }
}
