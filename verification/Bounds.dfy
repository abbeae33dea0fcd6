/** What the deleters may and may not remove. */
module Bounds {
  import opened Base
  import opened Findings
  import opened States
  import opened Eviction
  import opened Protocol
  import opened Consumer
  import opened Convergence
  import opened Lifecycle

  /** The cap leaves exactly min(n, MaxFindings) entries. */
  lemma CapLeavesExactly(cfg: Config, findings: map<Id, FindingState>, gone: set<Id>)
    requires FindingCap(cfg, findings, gone)
    ensures gone <= findings.Keys
    ensures |findings - gone| ==
            if cfg.maxFindings > 0 && |findings| > cfg.maxFindings then cfg.maxFindings else |findings|
  {
    var resolved := WithStatus(findings, Resolved);
    if cfg.maxFindings > 0 && |findings| > cfg.maxFindings && |findings| - cfg.maxFindings > |resolved| {
      assert gone == resolved + (gone - resolved);
      assert gone <= findings.Keys;
    }
    assert (findings - gone).Keys == findings.Keys - gone;
    assert |findings.Keys - gone| == |findings.Keys| - |gone|;
  }

  /** No step deletes an entry that is not resolved, except the cap when those entries alone exceed it. */
  lemma OngoingIsProtected(cfg: Config, m: Machine, step: Step, id: Id)
    requires Enabled(cfg, m, step)
    requires id in m.state.findings && id !in Apply(cfg, m, step).state.findings
    ensures m.state.findings[id].status == Resolved
            || (step.CapFindings? && 0 < cfg.maxFindings < |NonResolved(m.state.findings)|)
  {
    if step.CapFindings? {
      CapSparesNonResolved(cfg, m.state.findings, step.ids);
    }
  }

  // ----- an entry reported in this very poll -----

  /** Of the entries that are not resolved, exactly the reported ones are from this instant. */
  ghost predicate CurrentAre(m: Machine, reported: set<Id>, now: Time) {
    && (forall id :: id in reported && id in m.state.findings ==>
          m.state.findings[id].status == Ongoing && m.state.findings[id].lastSeen == now)
    && (forall id ::
          (id in m.state.findings && m.state.findings[id].status != Resolved && m.state.findings[id].lastSeen >= now)
          ==>
          id in reported)
  }

  lemma {:induction false} ResolvesKeepCurrent(cfg: Config, m: Machine, steps: seq<Step>, reported: set<Id>)
    requires CurrentAre(m, reported, m.clock) && reported <= m.active && Valid(cfg, m, steps)
    requires forall i :: 0 <= i < |steps| ==> steps[i].Resolve?
    ensures var n := Run(cfg, m, steps);
      CurrentAre(n, reported, m.clock) && n.clock == m.clock && n.active == m.active
      && n.state.findings.Keys == m.state.findings.Keys
  {
    if steps != [] {
      assert Last(steps) == steps[|steps| - 1];
      ResolvesKeepCurrent(cfg, m, Init(steps), reported);
    }
  }

  lemma {:induction false} SavingKeepsOngoing(cfg: Config, m: Machine, steps: seq<Step>, id: Id)
    requires id in m.state.findings && m.state.findings[id].status == Ongoing && Valid(cfg, m, steps)
    requires forall i :: 0 <= i < |steps| ==> Saving(steps[i])
    ensures var n := Run(cfg, m, steps); id in n.state.findings && n.state.findings[id].status == Ongoing
  {
    if steps != [] {
      assert Last(steps) == steps[|steps| - 1];
      SavingKeepsOngoing(cfg, m, Init(steps), id);
    }
  }

  /** If the cap evicts an entry reported at this instant, then all it leaves was reported at this instant too. */
  lemma CapEvictsReported(cfg: Config, m: Machine, gone: set<Id>, reported: set<Id>, id: Id)
    requires FindingCap(cfg, m.state.findings, gone) && CurrentAre(m, reported, m.clock)
    requires id in gone && id in reported
    ensures 0 < cfg.maxFindings < |reported|
  {
    var findings := m.state.findings;
    CapLeavesExactly(cfg, findings, gone);
    var resolved := WithStatus(findings, Resolved);
    var left := (findings - gone).Keys;
    var ages := FindingAges(findings) - resolved;
    assert id in gone - resolved && !(gone <= resolved);
    assert resolved <= gone && OldestK(ages, gone - resolved, |findings| - cfg.maxFindings - |resolved|);
    forall s | s in left ensures s in reported {
      assert s in ages.Keys - (gone - resolved);
      assert ages[id] <= ages[s];
    }
    assert left + {id} <= reported;
    SubsetSize(left + {id}, reported);
  }

  lemma {:induction false} SubsetSize<T>(a: set<T>, b: set<T>)
    requires a <= b
    ensures |a| <= |b|
  {
    if a != {} {
      var x :| x in a;
      SubsetSize(a - {x}, b - {x});
    }
  }

  lemma PollAfterResolves(cfg: Config, m: Machine, p: Poll)
    requires IsPoll(cfg, m, p)
    requires forall id :: id in m.state.findings ==> m.state.findings[id].lastSeen < p.now
    ensures var k := AfterResolves(cfg, m, p); var reported := Named(p.reports);
      CurrentAre(k, reported, p.now) && k.clock == p.now && reported <= k.state.findings.Keys
      && forall i :: 0 <= i < |p.resolves| ==> p.resolves[i].Resolve?
  {
    PollParts(cfg, m, p);
    PollReports(p);
    var begun, n := Apply(cfg, m, Begin(p.now)), AfterReports(cfg, m, p);
    ReportsTouchOnlyActive(cfg, begun, p.reports);
    assert forall id :: id in n.state.findings && id !in Named(p.reports) ==>
      n.state.findings[id] == m.state.findings[id];
    ResolvesKeepCurrent(cfg, n, p.resolves, Named(p.reports));
  }

  lemma CurrentBeforeCap(cfg: Config, k: Machine, p: Poll, reported: set<Id>, id: Id)
    requires CurrentAre(k, reported, k.clock) && id in reported && id in k.state.findings
    ensures var e := BeforeCap(cfg, k, p.capObservations);
      e.clock == k.clock && CurrentAre(e, reported, e.clock) && id in e.state.findings
  {
  }

  lemma PruningEvictsReported(cfg: Config, k: Machine, p: Poll, reported: set<Id>, id: Id)
    requires CurrentAre(k, reported, k.clock) && id in reported && id in k.state.findings
    requires Valid(cfg, k, Pruning(p)) && forall i :: 0 <= i < |p.saving| ==> Saving(p.saving[i])
    requires id !in Run(cfg, k, Pruning(p)).state.findings
    ensures 0 < cfg.maxFindings < |reported|
  {
    PruningParts(cfg, k, p);
    CurrentBeforeCap(cfg, k, p, reported, id);
    var e := BeforeCap(cfg, k, p.capObservations);
    if id !in p.capFindings {
      SavingKeepsOngoing(cfg, Apply(cfg, e, CapFindings(p.capFindings)), p.saving, id);
      assert false;
    }
    CapEvictsReported(cfg, e, p.capFindings, reported, id);
  }

  /** With strictly increasing poll times, a poll evicts an entry it reported itself only if it alone
      reported more than MaxFindings distinct ids. */
  lemma ReportedIsEvictedOnlyByItsPoll(cfg: Config, m: Machine, p: Poll, id: Id)
    requires IsPoll(cfg, m, p) && Timely(m) && m.clock < p.now
    requires id in ReportedIds(p.suppressions, p.results)
    requires id !in Run(cfg, m, Steps(p)).state.findings
    ensures 0 < cfg.maxFindings < |ReportedIds(p.suppressions, p.results)|
  {
    PollAfterResolves(cfg, m, p);
    PollParts(cfg, m, p);
    PollReports(p);
    PruningEvictsReported(cfg, AfterResolves(cfg, m, p), p, Named(p.reports), id);
  }

  // ----- size -----

  ghost function ShrunkKeys(steps: seq<Step>): set<string> {
    set i | 0 <= i < |steps| && steps[i].ShrinkObservation? :: steps[i].key
  }

  ghost function ShrunkIds(steps: seq<Step>): set<Id> {
    set i | 0 <= i < |steps| && steps[i].ShrinkFinding? :: steps[i].id
  }

  lemma ShrunkSnoc(steps: seq<Step>)
    requires steps != []
    ensures ShrunkKeys(steps)
      == ShrunkKeys(Init(steps)) + (if Last(steps).ShrinkObservation? then {Last(steps).key} else {})
    ensures ShrunkIds(steps) == ShrunkIds(Init(steps)) + (if Last(steps).ShrinkFinding? then {Last(steps).id} else {})
  {
    assert Last(steps) == steps[|steps| - 1];
    forall k | k in ShrunkKeys(Init(steps)) ensures k in ShrunkKeys(steps) {
      var i :| 0 <= i < |Init(steps)| && Init(steps)[i].ShrinkObservation? && Init(steps)[i].key == k;
      assert steps[i].key == k;
    }
    forall k | k in ShrunkIds(Init(steps)) ensures k in ShrunkIds(steps) {
      var i :| 0 <= i < |Init(steps)| && Init(steps)[i].ShrinkFinding? && Init(steps)[i].id == k;
      assert steps[i].id == k;
    }
  }

  predicate Shrinking(steps: seq<Step>) {
    forall i :: 0 <= i < |steps| ==> steps[i].ShrinkObservation? || steps[i].ShrinkFinding?
  }

  /** The ages that the second loop of pruneForStateSize looks at. */
  ghost function ResolvedAges(findings: map<Id, FindingState>): map<Id, Time> {
    Restrict(FindingAges(findings), WithStatus(findings, Resolved))
  }

  /** From a to b the state lost these observations and these resolved findings and nothing else: some oldest
      observations first, and some oldest resolved findings once no observation was left. */
  ghost predicate LostOldest(a: MonitorState, b: MonitorState, keys: set<string>, ids: set<Id>, j: nat, k: nat) {
    && b == a.(observations := a.observations - keys, findings := a.findings - ids)
    && keys <= a.observations.Keys && |keys| == j
    && ("" !in a.observations ==> OldestK(ObservationAges(a.observations), keys, j))
    && OldestK(ResolvedAges(a.findings), ids, k)
    && (k > 0 ==> keys == a.observations.Keys)
  }

  lemma LosesObservation(cfg: Config, a: MonitorState, m: Machine, keys: set<string>, ids: set<Id>, j: nat, k: nat,
                         key: string)
    requires LostOldest(a, m.state, keys, ids, j, k) && Enabled(cfg, m, ShrinkObservation(key))
    ensures k == 0
    ensures LostOldest(a, Apply(cfg, m, ShrinkObservation(key)).state, keys + {key}, ids, j + 1, k)
  {
    assert key in ObservationAges(m.state.observations) && key !in keys;
    assert a.observations - keys - {key} == a.observations - (keys + {key});
    if "" !in a.observations {
      var ages := ObservationAges(a.observations);
      forall s | s in ages && s !in keys ensures ages[key] <= ages[s] {
        assert s in ObservationAges(m.state.observations);
      }
      MinimumExtendsOldest(ages, keys, j, key);
    }
  }

  lemma LosesFinding(cfg: Config, a: MonitorState, m: Machine, keys: set<string>, ids: set<Id>, j: nat, k: nat, id: Id)
    requires LostOldest(a, m.state, keys, ids, j, k) && Enabled(cfg, m, ShrinkFinding(id))
    ensures LostOldest(a, Apply(cfg, m, ShrinkFinding(id)).state, keys, ids + {id}, j, k + 1)
  {
    assert Minimum(ResolvedAges(m.state.findings), id) && m.state.observations == map[];
    assert Apply(cfg, m, ShrinkFinding(id)).state == m.state.(findings := m.state.findings - {id});
    hide Apply, Enabled;
    AgesOfRest(a.findings, ids, k, id);
    assert a.findings - ids - {id} == a.findings - (ids + {id});
    AllGone(a.observations, keys);
  }

  lemma AllGone<V>(m: map<string, V>, keys: set<string>)
    requires m - keys == map[] && keys <= m.Keys
    ensures keys == m.Keys
  {
    assert forall key :: key in m && key !in keys ==> key in m - keys;
  }

  lemma AgesOfRest(findings: map<Id, FindingState>, ids: set<Id>, k: nat, id: Id)
    requires OldestK(ResolvedAges(findings), ids, k) && Minimum(ResolvedAges(findings - ids), id)
    ensures OldestK(ResolvedAges(findings), ids + {id}, k + 1)
  {
    var ages := ResolvedAges(findings);
    assert id in ages && id !in ids && ages[id] == ResolvedAges(findings - ids)[id];
    forall s | s in ages && s !in ids ensures ages[id] <= ages[s] {
      assert s in ResolvedAges(findings - ids);
    }
    MinimumExtendsOldest(ages, ids, k, id);
  }

  lemma NothingLost(a: MonitorState)
    ensures LostOldest(a, a, {}, {}, 0, 0)
  {
    assert a.observations - {} == a.observations && a.findings - {} == a.findings;
  }

  lemma RemovalIsNeeded(cfg: Config, m: Machine, step: Step)
    requires Enabled(cfg, m, step) && (step.ShrinkObservation? || step.ShrinkFinding?)
    ensures TooLarge(cfg, m.state)
  {
  }

  predicate InOrder(steps: seq<Step>, j: nat) {
    forall i :: 0 <= i < |steps| ==> (steps[i].ShrinkObservation? <==> i < j)
  }

  lemma InOrderSnoc(steps: seq<Step>, j: nat)
    requires steps != [] && j < |steps| && InOrder(Init(steps), j)
    ensures Last(steps).ShrinkFinding? ==> InOrder(steps, j)
    ensures Last(steps).ShrinkObservation? && j == |steps| - 1 ==> InOrder(steps, j + 1)
  {
    assert forall i :: 0 <= i < |steps| - 1 ==> Init(steps)[i] == steps[i];
  }

  /** What the size limit removes, over a whole list of removals: some oldest observations and then, once no
      observation is left, some oldest resolved findings. Nothing else is lost, and every removal was needed:
      before the last one the state did not fit. */
  lemma {:induction false} SizeRemovesOldest(cfg: Config, m: Machine, steps: seq<Step>) returns (j: nat)
    requires Valid(cfg, m, steps) && Shrinking(steps)
    ensures j <= |steps| && InOrder(steps, j)
    ensures LostOldest(m.state, Run(cfg, m, steps).state, ShrunkKeys(steps), ShrunkIds(steps), j, |steps| - j)
    ensures steps != [] ==> TooLarge(cfg, Run(cfg, m, Init(steps)).state)
  {
    hide LostOldest, Apply, Enabled, TooLarge, ShrunkKeys, ShrunkIds, Run, Valid, InOrder;
    if steps == [] {
      NothingRemoved(cfg, m);
      j := 0;
    } else {
      var init, step := Init(steps), Last(steps);
      var k := Run(cfg, m, init);
      LastRemoval(cfg, m, steps);
      j := SizeRemovesOldest(cfg, m, init);
      ShrunkSnoc(steps);
      if step.ShrinkObservation? {
        assert ShrunkIds(steps) == ShrunkIds(init);
        LosesObservation(cfg, m.state, k, ShrunkKeys(init), ShrunkIds(init), j, |init| - j, step.key);
        InOrderSnoc(steps, j);
        j := j + 1;
      } else {
        assert ShrunkKeys(steps) == ShrunkKeys(init);
        LosesFinding(cfg, m.state, k, ShrunkKeys(init), ShrunkIds(init), j, |init| - j, step.id);
        InOrderSnoc(steps, j);
      }
    }
  }

  lemma NothingRemoved(cfg: Config, m: Machine)
    ensures LostOldest(m.state, Run(cfg, m, []).state, ShrunkKeys([]), ShrunkIds([]), 0, 0) && InOrder([], 0)
  {
    assert ShrunkKeys([]) == {} && ShrunkIds([]) == {};
    NothingLost(m.state);
  }

  lemma LastRemoval(cfg: Config, m: Machine, steps: seq<Step>)
    requires steps != [] && Valid(cfg, m, steps) && Shrinking(steps)
    ensures var k := Run(cfg, m, Init(steps));
      && Valid(cfg, m, Init(steps)) && Shrinking(Init(steps))
        && (Last(steps).ShrinkObservation? || Last(steps).ShrinkFinding?)
      && Run(cfg, m, steps) == Apply(cfg, k, Last(steps)) && Enabled(cfg, k, Last(steps)) && TooLarge(cfg, k.state)
  {
    assert Last(steps) == steps[|steps| - 1];
    RemovalIsNeeded(cfg, Run(cfg, m, Init(steps)), Last(steps));
  }

  lemma MinimumExtendsOldest<K(!new)>(ages: map<K, Time>, gone: set<K>, k: nat, x: K)
    requires OldestK(ages, gone, k) && x in ages && x !in gone
    requires forall s :: s in ages && s !in gone ==> ages[x] <= ages[s]
    ensures OldestK(ages, gone + {x}, k + 1)
  {
  }

  /** The saving phase of a poll: what it removes is lost in that order, and after it the state either fits or
      holds neither an observation nor a resolved finding. */
  lemma PollSizeRemovesOldest(cfg: Config, m: Machine, p: Poll) returns (j: nat, k: nat)
    requires IsPoll(cfg, m, p) && Completes(cfg, m, p)
    ensures var c := Capped(cfg, AfterResolves(cfg, m, p), p.capObservations, p.capFindings);
      var n := Run(cfg, m, Steps(p));
      && LostOldest(c.state, n.state, ShrunkKeys(p.saving), ShrunkIds(p.saving), j, k)
      && (j + k > 0 ==> TooLarge(cfg, c.state))
      && (MaySave(cfg, c.dirty, c.lastWrite, p.now) && TooLarge(cfg, n.state) ==>
            n.state.observations == map[] && WithStatus(n.state.findings, Resolved) == {})
  {
    var c := Capped(cfg, AfterResolves(cfg, m, p), p.capObservations, p.capFindings);
    PollParts(cfg, m, p);
    PruningParts(cfg, AfterResolves(cfg, m, p), p);
    j, k := SavingRemovesOldest(cfg, c, p.saving);
  }

  lemma SavingRemovesOldest(cfg: Config, c: Machine, saving: seq<Step>) returns (j: nat, k: nat)
    requires Valid(cfg, c, saving)
    requires forall i :: 0 <= i < |saving| ==> Saving(saving[i]) && (saving[i].Save? ==> i == |saving| - 1)
    ensures LostOldest(c.state, Run(cfg, c, saving).state, ShrunkKeys(saving), ShrunkIds(saving), j, k)
    ensures j + k > 0 ==> TooLarge(cfg, c.state)
  {
    hide LostOldest, Apply, Enabled, TooLarge, ShrunkKeys, ShrunkIds;
    var shrinks := if saving != [] && Last(saving).Save? then Init(saving) else saving;
    j := SizeRemovesOldest(cfg, c, shrinks);
    k := |shrinks| - j;
    if shrinks != saving {
      ShrunkSnoc(saving);
      SaveKeepsState(cfg, Run(cfg, c, shrinks), Last(saving));
      assert Run(cfg, c, saving) == Apply(cfg, Run(cfg, c, shrinks), Last(saving));
      assert ShrunkKeys(saving) == ShrunkKeys(shrinks) && ShrunkIds(saving) == ShrunkIds(shrinks);
    }
    if shrinks != [] {
      FirstWasNeeded(cfg, c, shrinks);
    }
  }

  lemma SaveKeepsState(cfg: Config, m: Machine, step: Step)
    requires step.Save?
    ensures Apply(cfg, m, step).state == m.state
  {
  }

  lemma {:induction false} FirstWasNeeded(cfg: Config, m: Machine, steps: seq<Step>)
    requires Valid(cfg, m, steps) && Shrinking(steps) && steps != []
    ensures TooLarge(cfg, m.state)
  {
    if Init(steps) != [] {
      FirstWasNeeded(cfg, m, Init(steps));
    } else {
      assert Last(steps) == steps[0];
    }
  }
}
