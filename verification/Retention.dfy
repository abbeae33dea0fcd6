/** What a poll forgets, told by the configuration and the entries alone. */
module Retention {
  import opened Base
  import opened Findings
  import opened States
  import opened Eviction
  import opened Protocol
  import opened Convergence
  import opened Bounds
  import opened Observed

  /** The entries resolved for longer than the retention, if there is one. */
  ghost function Overdue(cfg: Config, findings: map<Id, FindingState>, now: Time): set<Id> {
    set id | id in findings && cfg.resolvedRetention > 0 && findings[id].status == Resolved
             && now - findings[id].lastSeen > cfg.resolvedRetention
  }

  /** The observations not seen for longer than the retention, if there is one; null entries and those never
      seen are kept. */
  ghost function Outdated(cfg: Config, observations: map<string, Option<Observation>>, now: Time): set<string> {
    set k | k in observations && cfg.observationRetention > 0 && observations[k].Some?
            && observations[k].value.lastSeen != ZERO_TIME
            && now - observations[k].value.lastSeen > cfg.observationRetention
  }

  /** A poll deletes exactly the overdue entries, then what the cap takes of the rest, then what the size takes;
      the cap takes nothing unless the entries that are not overdue exceed it. */
  lemma PollForgetsFindings(cfg: Config, m: Machine, p: Poll)
    requires IsPoll(cfg, m, p)
    ensures var k, n := AfterResolves(cfg, m, p), Run(cfg, m, Steps(p));
      var overdue := Overdue(cfg, k.state.findings, p.now);
      && k.clock == p.now
      && n.state.findings == k.state.findings - overdue - p.capFindings - ShrunkIds(p.saving)
      && (p.capFindings != {} ==>
            && p.capFindings <= k.state.findings.Keys - overdue
            && 0 < cfg.maxFindings < |k.state.findings.Keys - overdue|)
  {
    var k := AfterResolves(cfg, m, p);
    PollParts(cfg, m, p);
    PruningParts(cfg, k, p);
    ResultsMerge(cfg, m, p);
    AfterTheCap(cfg, k, p.capObservations, p.capFindings);
    SavingForgets(cfg, Capped(cfg, k, p.capObservations, p.capFindings), p.saving);
  }

  lemma AfterTheCap(cfg: Config, k: Machine, keys: set<string>, ids: set<Id>)
    requires Enabled(cfg, BeforeCap(cfg, k, keys), CapFindings(ids))
    ensures var overdue := Overdue(cfg, k.state.findings, k.clock);
      && Capped(cfg, k, keys, ids).state.findings == k.state.findings - overdue - ids
      && (ids != {} ==>
            && ids <= k.state.findings.Keys - overdue
            && 0 < cfg.maxFindings < |k.state.findings.Keys - overdue|)
  {
    var overdue := Overdue(cfg, k.state.findings, k.clock);
    assert overdue == Expired(cfg, k.state.findings, k.clock);
    var left := k.state.findings - overdue;
    assert BeforeCap(cfg, k, keys).state.findings == left;
    assert left.Keys == k.state.findings.Keys - overdue && |left| == |left.Keys|;
    CapLeavesExactly(cfg, left, ids);
  }

  lemma {:induction false} SavingForgets(cfg: Config, m: Machine, steps: seq<Step>)
    requires forall i :: 0 <= i < |steps| ==> Saving(steps[i])
    ensures Run(cfg, m, steps).state.findings == m.state.findings - ShrunkIds(steps)
  {
    if steps != [] {
      assert steps[|steps| - 1] == Last(steps);
      SavingForgets(cfg, m, Init(steps));
      ShrunkSnoc(steps);
    }
  }

  /** A poll deletes exactly the outdated observations, and what the cap and the size take of the rest. */
  lemma PollForgetsObservations(cfg: Config, m: Machine, p: Poll)
    requires IsPoll(cfg, m, p)
    ensures var merged := MergeAll(m.state.observations, p.results);
      var outdated := Outdated(cfg, merged, p.now);
      && Run(cfg, m, Steps(p)).state.observations == merged - outdated - p.capObservations - ShrunkKeys(p.saving)
      && (p.capObservations != {} ==>
            && p.capObservations <= merged.Keys - outdated
            && |p.capObservations| == |merged.Keys - outdated| - cfg.maxObservations && cfg.maxObservations > 0)
  {
    var merged := MergeAll(m.state.observations, p.results);
    var k := AfterResolves(cfg, m, p);
    OutdatedIsStale(cfg, merged, p.now);
    hide Apply, Valid, Run, Outdated, Stale, Shaped, AfterResolves, Aged, BeforeCap, Enabled;
    PollObserves(cfg, m, p);
    PollParts(cfg, m, p);
    PruningParts(cfg, k, p);
    ResultsMerge(cfg, m, p);
    ObservationsBeforeCap(cfg, k, p.capObservations);
    TakenInTurn(merged - Stale(cfg, merged, p.now), p.capObservations, ShrunkKeys(p.saving));
  }

  lemma TakenInTurn<K, V>(m: map<K, V>, a: set<K>, b: set<K>)
    ensures m - (a + b) == m - a - b
  {
  }

  lemma OutdatedIsStale(cfg: Config, observations: map<string, Option<Observation>>, now: Time)
    ensures Outdated(cfg, observations, now) == Stale(cfg, observations, now)
  {
  }

  lemma ObservationsBeforeCap(cfg: Config, k: Machine, keys: set<string>)
    requires Enabled(cfg, Aged(cfg, k), CapObservations(keys))
    ensures var left := k.state.observations.Keys - Stale(cfg, k.state.observations, k.clock);
      keys != {} ==> keys <= left && |keys| == |left| - cfg.maxObservations && cfg.maxObservations > 0
  {
    var left := k.state.observations - Stale(cfg, k.state.observations, k.clock);
    assert Aged(cfg, k).state.observations == left;
    assert left.Keys == k.state.observations.Keys - Stale(cfg, k.state.observations, k.clock) && |left| == |left.Keys|;
    assert ObservationAges(left).Keys == left.Keys;
  }

  /** The cap takes resolved entries first and older before younger: it spares no resolved entry if it takes one
      that is not, and spares nothing older than what it takes of the same kind. */
  lemma CapTakesOldestFirst(cfg: Config, findings: map<Id, FindingState>, gone: set<Id>, a: Id, b: Id)
    requires FindingCap(cfg, findings, gone)
    requires a in gone && a in findings && b in findings && b !in gone
    ensures findings[a].status == Resolved || findings[b].status != Resolved
    ensures (findings[a].status == Resolved <==> findings[b].status == Resolved) ==>
      findings[a].lastSeen <= findings[b].lastSeen
  {
    var resolved, ages := WithStatus(findings, Resolved), FindingAges(findings);
    if |findings| - cfg.maxFindings <= |resolved| {
      assert OldestK(Restrict(ages, resolved), gone, |findings| - cfg.maxFindings);
      if b in resolved {
        assert b in Restrict(ages, resolved);
      }
    } else if a !in resolved {
      assert a in gone - resolved && b in (ages - resolved).Keys - (gone - resolved);
    }
  }

  /** The same for observations, where null entries count as oldest. */
  lemma ObservationCapTakesOldest(cfg: Config, observations: map<string, Option<Observation>>, gone: set<string>,
                                  a: string, b: string)
    requires ObservationCap(cfg, observations, gone)
    requires a in gone && a in observations && b in observations && b !in gone
    ensures ObservationAge(observations[a]) <= ObservationAge(observations[b])
    ensures observations[b].None? ==> ObservationAge(observations[a]) <= ZERO_TIME
  {
    var ages := ObservationAges(observations);
    assert a in ages && b in ages;
  }
}
