/** The results of one poll: one for each enabled check, in the order of Poll. */
module Results {
  import opened Base
  import opened Findings
  import opened Protocol
  import opened Convergence
  import opened Lifecycle
  import opened Listing

  const ALL_CHECKS: seq<CheckKind> :=
    [Pods, ResourceSpecs, Events, Workloads, Services, PVCs, Scaling, Logs, ResourceUsage, CustomResource]

  function EnabledAmong(c: Checks, kinds: seq<CheckKind>): seq<CheckKind> {
    if kinds == [] then []
    else (if IsEnabled(c, kinds[0]) then [kinds[0]] else []) + EnabledAmong(c, kinds[1..])
  }

  function ResultsAmong(kinds: seq<CheckKind>, accepted: CheckKind -> CheckResult): (r: seq<CheckResult>)
    ensures |r| == |kinds| && forall i :: 0 <= i < |r| ==> r[i] == accepted(kinds[i])
  {
    seq(|kinds|, i requires 0 <= i < |kinds| => accepted(kinds[i]))
  }

  /** What runCheck accepted for each enabled check; a check that timed out counts as empty and incomplete. */
  function ResultsOf(c: Checks, accepted: CheckKind -> CheckResult): seq<CheckResult> {
    ResultsAmong(EnabledAmong(c, ALL_CHECKS), accepted)
  }

  lemma {:induction false} AmongExactly(c: Checks, kinds: seq<CheckKind>, kind: CheckKind)
    ensures kind in EnabledAmong(c, kinds) <==> kind in kinds && IsEnabled(c, kind)
  {
    if kinds != [] {
      assert kinds == [kinds[0]] + kinds[1..];
      AmongExactly(c, kinds[1..], kind);
    }
  }

  lemma EveryKindIsListed(kind: CheckKind)
    ensures kind in ALL_CHECKS
  {
    match kind
    case Pods => assert ALL_CHECKS[0] == kind;
    case ResourceSpecs => assert ALL_CHECKS[1] == kind;
    case Events => assert ALL_CHECKS[2] == kind;
    case Workloads => assert ALL_CHECKS[3] == kind;
    case Services => assert ALL_CHECKS[4] == kind;
    case PVCs => assert ALL_CHECKS[5] == kind;
    case Scaling => assert ALL_CHECKS[6] == kind;
    case Logs => assert ALL_CHECKS[7] == kind;
    case ResourceUsage => assert ALL_CHECKS[8] == kind;
    case CustomResource => assert ALL_CHECKS[9] == kind;
  }

  /** A poll is complete exactly when every enabled check is. */
  lemma CompleteIfEveryCheckIs(c: Checks, accepted: CheckKind -> CheckResult)
    ensures AllComplete(ResultsOf(c, accepted)) <==> forall kind :: IsEnabled(c, kind) ==> accepted(kind).complete
  {
    var kinds, results := EnabledAmong(c, ALL_CHECKS), ResultsOf(c, accepted);
    if AllComplete(results) {
      forall kind | IsEnabled(c, kind) ensures accepted(kind).complete {
        EveryKindIsListed(kind);
        AmongExactly(c, ALL_CHECKS, kind);
        var i :| 0 <= i < |kinds| && kinds[i] == kind;
        assert results[i].complete;
      }
    }
    if forall kind :: IsEnabled(c, kind) ==> accepted(kind).complete {
      forall i | 0 <= i < |results| ensures results[i].complete {
        AmongExactly(c, ALL_CHECKS, kinds[i]);
      }
    }
  }

  // ----- what the listings have to do with it -----

  /** Every answer that an enabled check needs has arrived. */
  predicate EverythingListed(c: Checks, rules: Rules, api: Cluster) {
    && (c.pods || c.resourceSpecs || c.services || c.logs ==> api.pods.Some?)
    && (c.events ==> api.events.Some?)
    && (c.workloads ==> api.deployments.Some? && api.statefulSets.Some? && api.daemonSets.Some?)
    && (c.services ==> api.services.Some?)
    && (c.pvcs ==> api.pvcs.Some?)
    && (c.scaling ==> api.hpas.Some?)
    && (c.resourceUsage && rules.metrics.Some? ==> rules.metrics.value.Some? && api.pods.Some?)
    && (c.customResource && rules.discovered.Some? ==> rules.discovered.value.Some?)
  }

  /** The answers that one check needs. */
  predicate CheckListed(kind: CheckKind, rules: Rules, api: Cluster) {
    match kind
    case Pods => api.pods.Some?
    case ResourceSpecs => api.pods.Some?
    case Logs => api.pods.Some?
    case Events => api.events.Some?
    case Workloads => api.deployments.Some? && api.statefulSets.Some? && api.daemonSets.Some?
    case Services => api.services.Some? && api.pods.Some?
    case PVCs => api.pvcs.Some?
    case Scaling => api.hpas.Some?
    case ResourceUsage => rules.metrics.Some? ==> rules.metrics.value.Some? && api.pods.Some?
    case CustomResource => rules.discovered.Some? ==> rules.discovered.value.Some?
  }

  lemma CheckNeedsItsListings(c: Checks, kind: CheckKind, rules: Rules, now: Time, lookback: int, api: Cluster)
    requires IsEnabled(c, kind)
    ensures Check(kind, rules, now, lookback, Gated(c, api)).complete <==> CheckListed(kind, rules, api)
  {
  }

  lemma ListedExactly(c: Checks, rules: Rules, api: Cluster)
    ensures EverythingListed(c, rules, api) <==> forall kind :: IsEnabled(c, kind) ==> CheckListed(kind, rules, api)
  {
    if forall kind :: IsEnabled(c, kind) ==> CheckListed(kind, rules, api) {
      ListedInTurn(c, rules, api);
    }
  }

  lemma ListedInTurn(c: Checks, rules: Rules, api: Cluster)
    requires forall kind :: IsEnabled(c, kind) ==> CheckListed(kind, rules, api)
    ensures EverythingListed(c, rules, api)
  {
    assert c.pods ==> CheckListed(Pods, rules, api) by { assert IsEnabled(c, Pods) <==> c.pods; }
    assert c.resourceSpecs ==> CheckListed(ResourceSpecs, rules, api)
      by { assert IsEnabled(c, ResourceSpecs) <==> c.resourceSpecs; }
    assert c.logs ==> CheckListed(Logs, rules, api) by { assert IsEnabled(c, Logs) <==> c.logs; }
    assert c.events ==> CheckListed(Events, rules, api) by { assert IsEnabled(c, Events) <==> c.events; }
    assert c.workloads ==> CheckListed(Workloads, rules, api) by { assert IsEnabled(c, Workloads) <==> c.workloads; }
    assert c.services ==> CheckListed(Services, rules, api) by { assert IsEnabled(c, Services) <==> c.services; }
    assert c.pvcs ==> CheckListed(PVCs, rules, api) by { assert IsEnabled(c, PVCs) <==> c.pvcs; }
    assert c.scaling ==> CheckListed(Scaling, rules, api) by { assert IsEnabled(c, Scaling) <==> c.scaling; }
    assert c.resourceUsage ==> CheckListed(ResourceUsage, rules, api)
      by { assert IsEnabled(c, ResourceUsage) <==> c.resourceUsage; }
    assert c.customResource ==> CheckListed(CustomResource, rules, api)
      by { assert IsEnabled(c, CustomResource) <==> c.customResource; }
  }

  /** On the gated listing, all enabled checks are complete exactly when everything they need was listed. */
  lemma CompleteExactly(c: Checks, rules: Rules, now: Time, lookback: int, api: Cluster)
    ensures (forall kind :: IsEnabled(c, kind) ==> Check(kind, rules, now, lookback, Gated(c, api)).complete)
            <==> EverythingListed(c, rules, api)
  {
    hide Check, CheckListed, EverythingListed, IsEnabled, Gated;
    ListedExactly(c, rules, api);
    forall kind | IsEnabled(c, kind)
      ensures Check(kind, rules, now, lookback, Gated(c, api)).complete <==> CheckListed(kind, rules, api)
    {
      CheckNeedsItsListings(c, kind, rules, now, lookback, api);
    }
  }

  /** What runCheck may accept: what the check finds on the snapshot, or nothing when it timed out. */
  predicate Accepts(r: CheckResult, v: Verdict) {
    (r.findings == v.findings && r.complete == v.complete) || r == CheckResult([], false, map[])
  }

  /** A poll resolves nothing if a listing that an enabled check needs failed, or was abandoned, or a check
      timed out; otherwise it resolves exactly the ongoing entries that no check reports. */
  lemma ResolvesOnlyWhenListed(cfg: Config, m: Machine, p: Poll, accepted: CheckKind -> CheckResult,
                               rules: Rules, lookback: int, api: Cluster)
    requires IsPoll(cfg, m, p) && p.results == ResultsOf(cfg.checks, accepted)
    requires forall kind :: IsEnabled(cfg.checks, kind) ==>
      Accepts(accepted(kind), Check(kind, rules, p.now, lookback, Gated(cfg.checks, api)))
    ensures var resolved := ResolutionsFrom(Run(cfg, m, Steps(p)).log, |m.log|);
      if EverythingListed(cfg.checks, rules, api) && forall kind :: IsEnabled(cfg.checks, kind) ==>
        accepted(kind).complete
      then resolved == WithStatus(m.state.findings, Ongoing) - ReportedIds(p.suppressions, p.results)
      else resolved == {}
  {
    ResolvesExactlyTheMissing(cfg, m, p);
    CompleteIfEveryCheckIs(cfg.checks, accepted);
    CompleteExactly(cfg.checks, rules, p.now, lookback, api);
    if forall kind :: IsEnabled(cfg.checks, kind) ==> accepted(kind).complete {
      forall kind | IsEnabled(cfg.checks, kind)
        ensures Check(kind, rules, p.now, lookback, Gated(cfg.checks, api)).complete
      {
        assert Accepts(accepted(kind), Check(kind, rules, p.now, lookback, Gated(cfg.checks, api)));
      }
    }
  }

  /** An abandoned listing leaves every answer out. */
  lemma AbandonedIsNotListed(c: Checks, rules: Rules)
    requires c.pods || c.resourceSpecs || c.services || c.logs || c.events || c.workloads || c.pvcs || c.scaling
             || (c.resourceUsage && rules.metrics.Some?)
    ensures Gated(c, NOTHING_LISTED) == NOTHING_LISTED && !EverythingListed(c, rules, NOTHING_LISTED)
  {
  }

  /** With every check enabled the results come in the order of Poll. */
  lemma AllTenInOrder(c: Checks, accepted: CheckKind -> CheckResult)
    requires forall kind :: IsEnabled(c, kind)
    ensures ResultsOf(c, accepted) ==
      [accepted(Pods), accepted(ResourceSpecs), accepted(Events), accepted(Workloads), accepted(Services),
       accepted(PVCs), accepted(Scaling), accepted(Logs), accepted(ResourceUsage), accepted(CustomResource)]
  {
    AllAmong(c, ALL_CHECKS);
  }

  lemma {:induction false} AllAmong(c: Checks, kinds: seq<CheckKind>)
    requires forall kind :: IsEnabled(c, kind)
    ensures EnabledAmong(c, kinds) == kinds
  {
    if kinds != [] {
      AllAmong(c, kinds[1..]);
      assert kinds == [kinds[0]] + kinds[1..];
    }
  }

  /** In general they come in that order: of two enabled checks the one that Poll runs first has its result first. */
  lemma {:induction false} ResultsKeepOrder(c: Checks, kinds: seq<CheckKind>, i: nat, j: nat) returns (a: nat, b: nat)
    requires i < j < |kinds| && IsEnabled(c, kinds[i]) && IsEnabled(c, kinds[j])
    ensures var enabled := EnabledAmong(c, kinds);
      a < b < |enabled| && enabled[a] == kinds[i] && enabled[b] == kinds[j]
  {
    var rest, first := EnabledAmong(c, kinds[1..]), if IsEnabled(c, kinds[0]) then [kinds[0]] else [];
    assert EnabledAmong(c, kinds) == first + rest;
    if i > 0 {
      var a', b' := ResultsKeepOrder(c, kinds[1..], i - 1, j - 1);
      a, b := |first| + a', |first| + b';
    } else {
      AmongExactly(c, kinds[1..], kinds[j]);
      assert kinds[1..][j - 1] == kinds[j];
      var b' :| 0 <= b' < |rest| && rest[b'] == kinds[j];
      a, b := 0, 1 + b';
    }
  }
}
