/** From polls to histories: what a run of polls stores is the observation history of its accepted results. */
module Observed {
  import opened Base
  import opened Findings
  import opened States
  import opened Protocol
  import opened Suppression
  import opened Bounds
  import opened History

  function MergeAll(observations: map<string, Option<Observation>>, results: seq<CheckResult>)
    : map<string, Option<Observation>>
  {
    if results == [] then observations
    else Merged(MergeAll(observations, Init(results)), Last(results).observations)
  }

  /** What a list of reports and accepted results does to the observations. */
  function MergeSteps(observations: map<string, Option<Observation>>,
                      steps: seq<Step>): map<string, Option<Observation>> {
    if steps == [] then observations
    else
      var before := MergeSteps(observations, Init(steps));
      if Last(steps).Accept? then Merged(before, Last(steps).observations) else before
  }

  lemma {:induction false} MergeStepsConcat(observations: map<string, Option<Observation>>, a: seq<Step>, b: seq<Step>)
    ensures MergeSteps(observations, a + b) == MergeSteps(MergeSteps(observations, a), b)
    decreases |b|
  {
    if b == [] {
      assert a + b == a;
    } else {
      assert Init(a + b) == a + Init(b) && Last(a + b) == Last(b);
      MergeStepsConcat(observations, a, Init(b));
    }
  }

  lemma {:induction false} PromptsMergeNothing(observations: map<string, Option<Observation>>,
                                               suppressions: set<string>, findings: seq<Finding>)
    ensures MergeSteps(observations, Prompts(suppressions, findings)) == observations
  {
    if findings != [] {
      PromptsMergeNothing(observations, suppressions, Init(findings));
      var before := Prompts(suppressions, Init(findings));
      var report := Report(Last(findings), Acked);
      if IsSuppressed(suppressions, Last(findings)) {
        assert before + [] == before;
      } else {
        assert Init(before + [report]) == before && Last(before + [report]) == report;
      }
    }
  }

  lemma {:induction false} ScriptMerges(observations: map<string, Option<Observation>>, suppressions: set<string>,
                                        results: seq<CheckResult>)
    ensures MergeSteps(observations, Script(suppressions, results)) == MergeAll(observations, results)
  {
    if results != [] {
      var r := Last(results);
      var accept, prompts := Accept(r.observations, r.complete), Prompts(suppressions, r.findings);
      var before := Script(suppressions, Init(results));
      ScriptMerges(observations, suppressions, Init(results));
      MergeStepsConcat(observations, before, [accept] + prompts);
      MergeStepsConcat(MergeSteps(observations, before), [accept], prompts);
      assert Init([accept]) == [] && Last([accept]) == accept;
      PromptsMergeNothing(MergeSteps(observations, before + [accept]), suppressions, r.findings);
      MergeStepsConcat(observations, before, [accept]);
    }
  }

  lemma {:induction false} ReportsMerge(cfg: Config, m: Machine, steps: seq<Step>)
    requires forall i :: 0 <= i < |steps| ==> steps[i].Accept? || steps[i].Report?
    ensures Run(cfg, m, steps).state.observations == MergeSteps(m.state.observations, EraseAll(steps))
  {
    if steps != [] {
      assert steps[|steps| - 1] == Last(steps);
      ReportsMerge(cfg, m, Init(steps));
      assert Init(EraseAll(steps)) == EraseAll(Init(steps)) && Last(EraseAll(steps)) == Erase(Last(steps));
    }
  }

  lemma {:induction false} ScriptShape(suppressions: set<string>, results: seq<CheckResult>)
    ensures forall i :: 0 <= i < |Script(suppressions, results)| ==>
      Script(suppressions, results)[i].Accept? || Script(suppressions, results)[i].Report?
  {
    if results != [] {
      ScriptShape(suppressions, Init(results));
      PromptsShape(suppressions, Last(results).findings);
    }
  }

  lemma {:induction false} PromptsShape(suppressions: set<string>, findings: seq<Finding>)
    ensures forall i :: 0 <= i < |Prompts(suppressions, findings)| ==> Prompts(suppressions, findings)[i].Report?
  {
    if findings != [] {
      PromptsShape(suppressions, Init(findings));
    }
  }

  lemma {:induction false} ResolvesKeepObservations(cfg: Config, m: Machine, steps: seq<Step>)
    requires forall i :: 0 <= i < |steps| ==> steps[i].Resolve?
    ensures Run(cfg, m, steps).state.observations == m.state.observations
    ensures Run(cfg, m, steps).clock == m.clock
  {
    if steps != [] {
      assert steps[|steps| - 1].Resolve?;
      ResolvesKeepObservations(cfg, m, Init(steps));
    }
  }

  lemma {:induction false} SavingShrinks(cfg: Config, m: Machine, steps: seq<Step>)
    requires forall i :: 0 <= i < |steps| ==> Saving(steps[i])
    ensures Run(cfg, m, steps).state.observations == m.state.observations - ShrunkKeys(steps)
  {
    if steps != [] {
      assert steps[|steps| - 1] == Last(steps);
      SavingShrinks(cfg, m, Init(steps));
      ShrunkSnoc(steps);
    }
  }

  lemma {:induction false} ReportsKeepClock(cfg: Config, m: Machine, steps: seq<Step>)
    requires forall i :: 0 <= i < |steps| ==> steps[i].Accept? || steps[i].Report?
    ensures Run(cfg, m, steps).clock == m.clock
  {
    if steps != [] {
      assert steps[|steps| - 1] == Last(steps);
      ReportsKeepClock(cfg, m, Init(steps));
    }
  }

  lemma ReportsAreScripted(p: Poll)
    requires EraseAll(p.reports) == Script(p.suppressions, p.results)
    ensures forall i :: 0 <= i < |p.reports| ==> p.reports[i].Accept? || p.reports[i].Report?
  {
    ScriptShape(p.suppressions, p.results);
    forall i | 0 <= i < |p.reports| ensures p.reports[i].Accept? || p.reports[i].Report? {
      assert EraseAll(p.reports)[i] == Erase(p.reports[i]);
    }
  }

  ghost function Evicted(p: Poll): set<string> {
    p.capObservations + ShrunkKeys(p.saving)
  }

  lemma CappedObservations(cfg: Config, k: Machine, keys: set<string>, ids: set<Id>)
    ensures Capped(cfg, k, keys, ids).state.observations
         == k.state.observations - Stale(cfg, k.state.observations, k.clock) - keys
  {
  }

  lemma ResultsMerge(cfg: Config, m: Machine, p: Poll)
    requires IsPoll(cfg, m, p)
    ensures AfterResolves(cfg, m, p).state.observations == MergeAll(m.state.observations, p.results)
    ensures AfterResolves(cfg, m, p).clock == p.now
  {
    var begun := Apply(cfg, m, Begin(p.now));
    assert begun.state == m.state && begun.clock == p.now;
    hide Apply, Valid, ResolvesEach;
    ReportsAreScripted(p);
    ReportsMerge(cfg, begun, p.reports);
    ReportsKeepClock(cfg, begun, p.reports);
    ScriptMerges(m.state.observations, p.suppressions, p.results);
    ResolvesOnly(cfg, m, p);
    ResolvesKeepObservations(cfg, AfterReports(cfg, m, p), p.resolves);
  }

  lemma ResolvesOnly(cfg: Config, m: Machine, p: Poll)
    requires IsPoll(cfg, m, p)
    ensures forall i :: 0 <= i < |p.resolves| ==> p.resolves[i].Resolve?
  {
  }

  /** A poll merges the accepted results, drops what has become stale, and evicts; it changes no observation
      in any other way. */
  lemma PollObserves(cfg: Config, m: Machine, p: Poll)
    requires IsPoll(cfg, m, p)
    ensures var merged := MergeAll(m.state.observations, p.results);
      Run(cfg, m, Steps(p)).state.observations == merged - Stale(cfg, merged, p.now) - Evicted(p)
  {
    hide Apply, Valid, AfterResolves, AfterReports, Capped, ResolvesEach;
    var k := AfterResolves(cfg, m, p);
    PollParts(cfg, m, p);
    PruningParts(cfg, k, p);
    ResultsMerge(cfg, m, p);
    CappedObservations(cfg, k, p.capObservations, p.capFindings);
    SavingShrinks(cfg, Capped(cfg, k, p.capObservations, p.capFindings), p.saving);
  }

  // ----- the pods and usage results of a poll -----

  function Delta(results: seq<CheckResult>, i: int): map<string, Observation> {
    if 0 <= i < |results| then results[i].observations else map[]
  }

  /** Only the results at i and j carry observations. */
  ghost predicate OnlyTwoObserve(results: seq<CheckResult>, i: int, j: int) {
    i < j && forall n :: 0 <= n < |results| && n != i && n != j ==> results[n].observations == map[]
  }

  lemma MergedNothing(observations: map<string, Option<Observation>>)
    ensures Merged(observations, map[]) == observations
  {
  }

  lemma {:induction false} TwoObservers(observations: map<string, Option<Observation>>, results: seq<CheckResult>,
                                        i: int, j: int)
    requires OnlyTwoObserve(results, i, j)
    ensures MergeAll(observations, results) == Merged(Merged(observations, Delta(results, i)), Delta(results, j))
  {
    MergedNothing(observations);
    if results != [] {
      hide Merged, Delta;
      var init := Init(results);
      TwoObservers(observations, init, i, j);
      DeltaOfInit(results, i);
      DeltaOfInit(results, j);
      MergedNothing(MergeAll(observations, init));
    } else {
      assert Delta(results, i) == Delta(results, j) == map[];
    }
  }

  lemma DeltaOfInit(results: seq<CheckResult>, i: int)
    requires results != []
    ensures i != |results| - 1 ==> Delta(Init(results), i) == Delta(results, i)
    ensures i >= |results| - 1 ==> Delta(Init(results), i) == map[]
    ensures i >= |results| ==> Delta(results, i) == map[]
    ensures i == |results| - 1 ==> Delta(results, i) == Last(results).observations
  {
  }

  /** The poll p is the entry q of the history: q.pods and q.samples are what its accepted pods check listed
      and its accepted usage check sampled on the observations before the poll, and no other result carries
      observations. A missing, failed or timed-out check carries none. */
  ghost predicate Records(p: Poll, q: ObsPoll, observations: map<string, Option<Observation>>) {
    && q.now == p.now && q.evicted == Evicted(p)
    && exists i, j :: OnlyTwoObserve(p.results, i, j)
         && Delta(p.results, i) == PodsDelta(q) && Delta(p.results, j) == SamplesDelta(q, Prior(observations))
  }

  lemma RecordedPollObserves(cfg: Config, m: Machine, p: Poll, q: ObsPoll)
    requires IsPoll(cfg, m, p) && Records(p, q, m.state.observations)
    ensures Run(cfg, m, Steps(p)).state.observations == Observe(cfg, m.state.observations, q)
  {
    PollObserves(cfg, m, p);
    var i, j :| OnlyTwoObserve(p.results, i, j)
         && Delta(p.results, i) == PodsDelta(q) && Delta(p.results, j) == SamplesDelta(q, Prior(m.state.observations));
    TwoObservers(m.state.observations, p.results, i, j);
  }

  ghost predicate RecordsAll(cfg: Config, ps: seq<Poll>, h: seq<ObsPoll>) {
    |ps| == |h| &&
    (ps == [] ||
     (RecordsAll(cfg, Init(ps), Init(h))
      && Records(Last(ps), Last(h), RunPolls(cfg, FreshStart(cfg), Init(ps)).state.observations)))
  }

  /** What the monitor holds after any run of polls is what the history says, so the history theorems speak
      about every run. */
  lemma {:induction false} RunsFollowHistory(cfg: Config, ps: seq<Poll>, h: seq<ObsPoll>)
    requires ValidPolls(cfg, FreshStart(cfg), ps) && RecordsAll(cfg, ps, h)
    ensures RunPolls(cfg, FreshStart(cfg), ps).state.observations == After(cfg, h)
    decreases |ps|
  {
    if ps != [] {
      RunsFollowHistory(cfg, Init(ps), Init(h));
      RecordedPollObserves(cfg, RunPolls(cfg, FreshStart(cfg), Init(ps)), Last(ps), Last(h));
    }
  }
}
