/** Where the conditions of the main theorems are needed: whole runs of polls that break what they promise. */
module Divergence {
  import opened Base
  import opened Findings
  import opened States
  import opened Suppression
  import opened Protocol
  import opened Consumer
  import opened Convergence
  import opened Durability
  import opened Triage
  import opened Cooldown

  // ----- polls with one check and no limits but the finding cap -----

  /** Retention, observation cap and size limit are off. */
  predicate OnlyCap(cfg: Config) {
    cfg.resolvedRetention <= 0 && cfg.observationRetention <= 0 && cfg.maxObservations <= 0 && cfg.maxStateBytes <= 0
  }

  function Acks(findings: seq<Finding>): seq<Step> {
    if findings == [] then [] else Acks(Init(findings)) + [Report(Last(findings), Acked)]
  }

  /** A poll with nothing suppressed and one result, all reports acknowledged. */
  function PollOf(now: Time, findings: seq<Finding>, ok: bool, resolves: seq<Step>, gone: set<Id>,
                  saving: seq<Step>): Poll {
    Poll(now, {}, [CheckResult(findings, ok, map[])], [Accept(map[], ok)] + Acks(findings), resolves, {}, gone, saving)
  }

  function Begun(m: Machine, now: Time, ok: bool): Machine {
    m.(active := {}, complete := ok, clock := now)
  }

  lemma {:induction false} AcksArePrompts(findings: seq<Finding>)
    ensures Acks(findings) == Prompts({}, findings) && EraseAll(Acks(findings)) == Acks(findings)
      && AllAcked(Acks(findings))
  {
    if findings != [] {
      AcksArePrompts(Init(findings));
    }
  }

  lemma {:induction false} AcksAreValid(cfg: Config, m: Machine, findings: seq<Finding>)
    requires forall i :: 0 <= i < |findings| ==> WellMade(cfg.namespace, findings[i])
    ensures Valid(cfg, m, Acks(findings))
  {
    if findings != [] {
      AcksAreValid(cfg, m, Init(findings));
      assert Last(findings) == findings[|findings| - 1];
      RunOne(cfg, m, Acks(Init(findings)), Report(Last(findings), Acked));
    }
  }

  /** The reports of such a poll. */
  lemma ReportsOf(cfg: Config, m: Machine, p: Poll, findings: seq<Finding>, ok: bool)
    requires p.now > ZERO_TIME && m.state.observations == map[]
    requires p.results == [CheckResult(findings, ok, map[])] && p.reports == [Accept(map[], ok)] + Acks(findings)
    requires p.suppressions == {} && forall i :: 0 <= i < |findings| ==> WellMade(cfg.namespace, findings[i])
    ensures EraseAll(p.reports) == Script(p.suppressions, p.results) && AllAcked(p.reports)
    ensures Valid(cfg, Apply(cfg, m, Begin(p.now)), p.reports)
    ensures AfterReports(cfg, m, p) == Run(cfg, Begun(m, p.now, ok), Acks(findings))
    ensures AllComplete(p.results) <==> ok
  {
    var begun, accept := Apply(cfg, m, Begin(p.now)), Accept(map[], ok);
    ScriptOf(findings, ok);
    AcksArePrompts(findings);
    AcksAreValid(cfg, Begun(m, p.now, ok), findings);
    AcceptsNothing(cfg, m, p.now, ok);
    RunCons(cfg, begun, accept, Acks(findings));
    AllAckedCons(accept, Acks(findings));
  }

  lemma AcceptsNothing(cfg: Config, m: Machine, now: Time, ok: bool)
    requires m.state.observations == map[]
    ensures Apply(cfg, Apply(cfg, m, Begin(now)), Accept(map[], ok)) == Begun(m, now, ok)
  {
    assert Merged(m.state.observations, map[]) == map[];
  }

  lemma AllAckedCons(step: Step, steps: seq<Step>)
    requires AllAcked(steps) && step.Accept?
    ensures AllAcked([step] + steps)
  {
  }

  lemma ScriptOf(findings: seq<Finding>, ok: bool)
    ensures var results := [CheckResult(findings, ok, map[])];
      && Script({}, results) == EraseAll([Accept(map[], ok)] + Acks(findings))
      && (AllComplete(results) <==> ok)
  {
    var results, accept := [CheckResult(findings, ok, map[])], Accept(map[], ok);
    AcksArePrompts(findings);
    assert Init(results) == [] && Last(results) == results[0];
    assert EraseAll([accept] + Acks(findings)) == [accept] + EraseAll(Acks(findings));
    assert Script({}, results) == [] + ([accept] + Prompts({}, findings));
  }

  function SaveIfDue(cfg: Config, c: Machine, now: Time, ok: bool): seq<Step> {
    if MaySave(cfg, c.dirty, c.lastWrite, now) then [Save(now, ok)] else []
  }

  /** The rest of such a poll is the cap and the save. */
  lemma EndOf(cfg: Config, m: Machine, p: Poll, ok: bool)
    requires OnlyCap(cfg) && p.now > ZERO_TIME && AfterResolves(cfg, m, p).clock == p.now
    requires Valid(cfg, Apply(cfg, m, Begin(p.now)), p.reports) && Valid(cfg, AfterReports(cfg, m, p), p.resolves)
    requires EraseAll(p.reports) == Script(p.suppressions, p.results)
    requires if AllComplete(p.results) then ResolvesEach(p.resolves, Missing(AfterReports(cfg, m, p)))
      else p.resolves == []
    requires p.capObservations == {} && FindingCap(cfg, AfterResolves(cfg, m, p).state.findings, p.capFindings)
    requires p.saving == SaveIfDue(cfg, WithoutFindings(AfterResolves(cfg, m, p), p.capFindings), p.now, ok)
    ensures IsPoll(cfg, m, p) && Completes(cfg, m, p)
    ensures var c := WithoutFindings(AfterResolves(cfg, m, p), p.capFindings);
      Run(cfg, m, Steps(p)) == if p.saving == [] then c else Apply(cfg, c, Save(p.now, ok))
  {
    var k := AfterResolves(cfg, m, p);
    var c := WithoutFindings(k, p.capFindings);
    PollParts(cfg, m, p);
    PruningParts(cfg, k, p);
    NothingAges(cfg, k, p.capFindings);
    SavesOnce(cfg, c, p.now, ok);
  }

  lemma NothingAges(cfg: Config, k: Machine, gone: set<Id>)
    requires OnlyCap(cfg)
    ensures Aged(cfg, k) == k && BeforeCap(cfg, k, {}) == k && Capped(cfg, k, {}, gone) == WithoutFindings(k, gone)
    ensures ObservationCap(cfg, k.state.observations, {})
  {
    assert k.state.findings - {} == k.state.findings && k.state.observations - {} == k.state.observations;
    assert Expired(cfg, k.state.findings, k.clock) == {} && Stale(cfg, k.state.observations, k.clock) == {};
  }

  lemma SavesOnce(cfg: Config, c: Machine, now: Time, ok: bool)
    requires OnlyCap(cfg) && now > ZERO_TIME && c.clock == now
    ensures var saving := SaveIfDue(cfg, c, now, ok);
      && Valid(cfg, c, saving) && SavesWhenDue(cfg, c, now, saving)
      && Run(cfg, c, saving) == if saving == [] then c else Apply(cfg, c, Save(now, ok))
  {
    if MaySave(cfg, c.dirty, c.lastWrite, now) {
      RunSingle(cfg, c, Save(now, ok));
    }
  }

  lemma AcksOfOne(cfg: Config, m: Machine, f: Finding)
    ensures Acks([f]) == [Report(f, Acked)] && Run(cfg, m, Acks([f])) == Apply(cfg, m, Report(f, Acked))
  {
    assert Init([f]) == [] && Last([f]) == f;
    RunSingle(cfg, m, Report(f, Acked));
  }

  lemma AcksOfTwo(cfg: Config, m: Machine, f: Finding, g: Finding)
    ensures Run(cfg, m, Acks([f, g])) == Apply(cfg, Apply(cfg, m, Report(f, Acked)), Report(g, Acked))
  {
    assert Init([f, g]) == [f] && Last([f, g]) == g;
    AcksOfOne(cfg, m, f);
    var steps := Acks([f]) + [Report(g, Acked)];
    assert Init(steps) == Acks([f]) && Last(steps) == Report(g, Acked);
  }

  function FirstMessage(cfg: Config, f: Finding, now: Time): Attempt {
    Attempt(Message(cfg, EntryFor(map[], f, now), f, now), Acked)
  }

  lemma NewReport(cfg: Config, m: Machine, f: Finding)
    requires f.id !in m.state.findings
    ensures var n := Apply(cfg, m, Report(f, Acked)); var findings := n.state.findings;
      && n.clock == m.clock && n.lastWrite == m.lastWrite && n.dirty && n.active == m.active + {f.id}
      && n.state.observations == m.state.observations
      && n.log == m.log + [FirstMessage(cfg, f, m.clock)] && OngoingIds(n.log) == OngoingIds(m.log) + {f.id}
      && findings == m.state.findings[f.id := ReportedEntry(cfg, map[], f, m.clock, Acked)]
      && findings[f.id].status == Ongoing && findings[f.id].lastSeen == m.clock
  {
    assert EntryFor(map[], f, m.clock) == EntryFor(m.state.findings, f, m.clock);
    hide Message, CooldownFor, Triages;
    assert MustPublish(cfg, m.state.findings, f, m.clock);
    FirstMessageTells(cfg, m.log, f, m.clock);
  }

  lemma FirstMessageTells(cfg: Config, log: seq<Attempt>, f: Finding, now: Time)
    ensures OngoingIds(log + [FirstMessage(cfg, f, now)]) == OngoingIds(log) + {f.id}
  {
    ViewAppend(log, FirstMessage(cfg, f, now));
  }

  lemma OldestOfTwo(cfg: Config, findings: map<Id, FindingState>, a: Id, b: Id)
    requires cfg.maxFindings == 1 && a != b && findings.Keys == {a, b}
    requires findings[a].status == Ongoing && findings[b].status == Ongoing
    requires findings[a].lastSeen <= findings[b].lastSeen
    ensures FindingCap(cfg, findings, {a})
  {
    assert WithStatus(findings, Resolved) == {};
    assert |findings| == |findings.Keys| == 2;
    assert {a} - {} == {a};
  }

  // ----- a poll that reports more than the cap holds -----

  function Overfull(f: Finding, g: Finding): Poll {
    PollOf(1, [f, g], true, [], {f.id}, [Save(1, false)])
  }

  /** A poll that reports f and g under a cap of one evicts f, which the consumer believes ongoing. */
  lemma OverfullPoll(cfg: Config, f: Finding, g: Finding)
    requires OnlyCap(cfg) && cfg.maxFindings == 1
    requires WellMade(cfg.namespace, f) && WellMade(cfg.namespace, g) && f.id != g.id
    ensures IsPoll(cfg, FreshStart(cfg), Overfull(f, g)) && Completes(cfg, FreshStart(cfg), Overfull(f, g))
    ensures var m := Run(cfg, FreshStart(cfg), Steps(Overfull(f, g)));
      && m.state.observations == map[] && m.state.findings.Keys == {g.id} && OngoingIds(m.log) == {f.id, g.id}
      && m.state.findings[g.id].status == Ongoing && m.state.findings[g.id].lastSeen == 1
      && m.log == [FirstMessage(cfg, f, 1), FirstMessage(cfg, g, 1)] && m.lastWrite == ZERO_TIME && m.dirty
        && m.clock == 1
  {
    hide Apply, FindingCap, IsPoll, Completes, Run, Valid, Script, AllAcked, AllComplete, FirstMessage;
    var m, p := FreshStart(cfg), Overfull(f, g);
    assert forall i :: 0 <= i < |[f, g]| ==> WellMade(cfg.namespace, [f, g][i]);
    ReportsOf(cfg, m, p, [f, g], true);
    AcksOfTwo(cfg, Begun(m, 1, true), f, g);
    TwoNewReports(cfg, f, g);
    var k := AfterReports(cfg, m, p);
    assert Missing(k) == {};
    NoneLeft(cfg, k, p.resolves);
    EndOf(cfg, m, p, false);
    FailedSave(cfg, WithoutFindings(k, {f.id}), 1);
  }

  lemma TwoNewReports(cfg: Config, f: Finding, g: Finding)
    requires cfg.maxFindings == 1 && f.id != g.id
    ensures var b := Begun(FreshStart(cfg), 1, true);
      var k := Apply(cfg, Apply(cfg, b, Report(f, Acked)), Report(g, Acked));
      && FindingCap(cfg, k.state.findings, {f.id})
      && k.state.observations == map[] && k.state.findings.Keys == {f.id, g.id} && OngoingIds(k.log) == {f.id, g.id}
      && k.state.findings[g.id].status == Ongoing && k.state.findings[g.id].lastSeen == 1
      && k.log == [FirstMessage(cfg, f, 1), FirstMessage(cfg, g, 1)]
      && k.active == {f.id, g.id} && k.dirty && k.lastWrite == ZERO_TIME && k.clock == 1
  {
    var b := Begun(FreshStart(cfg), 1, true);
    assert b.log == [] && OngoingIds([]) == {};
    NewReport(cfg, b, f);
    NewReport(cfg, Apply(cfg, b, Report(f, Acked)), g);
    hide Apply, ReportedEntry;
    var k := Apply(cfg, Apply(cfg, b, Report(f, Acked)), Report(g, Acked));
    OldestOfTwo(cfg, k.state.findings, f.id, g.id);
    assert [] + [FirstMessage(cfg, f, 1)] + [FirstMessage(cfg, g, 1)]
      == [FirstMessage(cfg, f, 1), FirstMessage(cfg, g, 1)];
  }

  lemma NoneLeft(cfg: Config, k: Machine, resolves: seq<Step>)
    requires resolves == []
    ensures ResolvesEach(resolves, {}) && Valid(cfg, k, resolves) && Run(cfg, k, resolves) == k
  {
  }

  lemma FailedSave(cfg: Config, m: Machine, now: Time)
    ensures Apply(cfg, m, Save(now, false)) == m
  {
  }

  ghost predicate BothComplete(cfg: Config, m: Machine, p: Poll, q: Poll) {
    Completes(cfg, m, p) && Completes(cfg, Run(cfg, m, Steps(p)), q)
  }

  lemma TwoPolls(cfg: Config, m: Machine, p: Poll, q: Poll)
    requires IsPoll(cfg, m, p) && IsPoll(cfg, Run(cfg, m, Steps(p)), q) && BothComplete(cfg, m, p, q)
    ensures ValidPolls(cfg, m, [p, q]) && RunPolls(cfg, m, [p, q]) == Run(cfg, Run(cfg, m, Steps(p)), Steps(q))
  {
    hide IsPoll, Completes, Run, ValidPolls, CompletePolls, RunPolls, Steps;
    PollsBegin(cfg, m);
    assert [] + [p] == [p] && [p] + [q] == [p, q];
    PollsGrow(cfg, m, [], p);
    assert RunPolls(cfg, m, [p]) == Run(cfg, m, Steps(p));
    PollsGrow(cfg, m, [p], q);
  }

  /** The condition on the cap is needed: after that poll, a complete and acknowledged poll that reports g alone
      leaves the consumer believing f ongoing, and no entry is left that could resolve it. */
  lemma OverfullPollDiverges(cfg: Config, f: Finding, g: Finding)
    requires OnlyCap(cfg) && cfg.maxFindings == 1
    requires WellMade(cfg.namespace, f) && WellMade(cfg.namespace, g) && f.id != g.id
    ensures var p, q := Overfull(f, g), PollOf(2, [g], true, [], {}, [Save(2, false)]);
      && ValidPolls(cfg, FreshStart(cfg), [p, q]) && BothComplete(cfg, FreshStart(cfg), p, q)
      && AllComplete(q.results) && AllAcked(q.reports) && AllAcked(q.resolves)
      && ReportedIds(q.suppressions, q.results) == {g.id}
      && OngoingIds(RunPolls(cfg, FreshStart(cfg), [p, q]).log) == {f.id, g.id}
  {
    var start := FreshStart(cfg);
    var p, q := Overfull(f, g), PollOf(2, [g], true, [], {}, [Save(2, false)]);
    OverfullPoll(cfg, f, g);
    var m := Run(cfg, start, Steps(p));
    NextPollOfOne(cfg, m, g);
    TwoPolls(cfg, start, p, q);
    RunKeepsInformed(cfg, start, Steps(p));
    PollConverges(cfg, m, q);
    ReportedOne(g, true);
  }

  lemma NextPollOfOne(cfg: Config, m: Machine, g: Finding)
    requires OnlyCap(cfg) && cfg.maxFindings == 1 && WellMade(cfg.namespace, g)
    requires m.state.observations == map[] && m.state.findings.Keys == {g.id} && m.lastWrite == ZERO_TIME
    ensures var q := PollOf(2, [g], true, [], {}, [Save(2, false)]);
      IsPoll(cfg, m, q) && Completes(cfg, m, q) && AllComplete(q.results) && AllAcked(q.reports) && AllAcked(q.resolves)
  {
    hide Apply, IsPoll, Completes, Script, AllComplete, Run, Valid;
    var q := PollOf(2, [g], true, [], {}, [Save(2, false)]);
    var b := Begun(m, 2, true);
    ReportsOf(cfg, m, q, [g], true);
    AcksOfOne(cfg, b, g);
    ReportLeaves(cfg, b, g);
    var k := AfterReports(cfg, m, q);
    assert k.state.findings.Keys == {g.id};
    assert |k.state.findings| == |k.state.findings.Keys| == 1;
    hide Apply;
    assert Missing(k) == {};
    NoneLeft(cfg, k, q.resolves);
    assert k.state.findings - {} == k.state.findings;
    EndOf(cfg, m, q, false);
  }

  lemma ReportedOne(f: Finding, ok: bool)
    ensures ReportedIds({}, [CheckResult([f], ok, map[])]) == {f.id}
  {
    var results := [CheckResult([f], ok, map[])];
    assert results[0].findings[0] == f && !IsSuppressed({}, f);
    assert f.id in ReportedIds({}, results);
  }

  // ----- an entry evicted inside its cooldown -----

  function EvictedTooEarly(f: Finding, g: Finding): Poll {
    PollOf(2, [f], false, [], {g.id}, [Save(2, false)])
  }

  /** When that poll evicts f inside its cooldown, the next report of f is an acknowledged triage request that
      comes no later than the cooldown of the first. */
  lemma SecondRequest(cfg: Config, f: Finding, g: Finding)
    requires OnlyCap(cfg) && cfg.maxFindings == 1
    requires WellMade(cfg.namespace, f) && WellMade(cfg.namespace, g) && f.id != g.id
    requires cfg.triageEnabled && f.score >= cfg.minScore && CooldownFor(cfg, f.classification) >= 1
    ensures var p, q := Overfull(f, g), EvictedTooEarly(f, g);
      var log := RunPolls(cfg, FreshStart(cfg), [p, q]).log;
      && ValidPolls(cfg, FreshStart(cfg), [p, q]) && BothComplete(cfg, FreshStart(cfg), p, q)
      && |log| == 3 && Requests(log[0], f.id) && Requests(log[2], f.id)
      && log[0].message.cooldownUntil.Some? && log[2].message.lastSeen <= log[0].message.cooldownUntil.value
      && Run(cfg, FreshStart(cfg), Steps(p)).clock == 1
  {
    hide FindingCap, IsPoll, Completes, Script, AllAcked, AllComplete;
    var start := FreshStart(cfg);
    var p, q := Overfull(f, g), EvictedTooEarly(f, g);
    OverfullPoll(cfg, f, g);
    var m := Run(cfg, start, Steps(p));
    var b := Begun(m, 2, false);
    ReportsOf(cfg, m, q, [f], false);
    AcksOfOne(cfg, b, f);
    NewReport(cfg, b, f);
    var k := AfterReports(cfg, m, q);
    OldestOfTwo(cfg, k.state.findings, g.id, f.id);
    NoneLeft(cfg, k, q.resolves);
    hide Apply, Run, Valid;
    EndOf(cfg, m, q, false);
    FailedSave(cfg, WithoutFindings(k, {g.id}), 2);
    TwoPolls(cfg, start, p, q);
  }

  /** The condition of CooldownExactly is met: that run breaks the spacing of f, at the step that evicts it. */
  lemma EvictionInsideCooldownBreaks(cfg: Config, f: Finding, g: Finding)
    requires OnlyCap(cfg) && cfg.maxFindings == 1
    requires WellMade(cfg.namespace, f) && WellMade(cfg.namespace, g) && f.id != g.id
    requires cfg.triageEnabled && f.score >= cfg.minScore && CooldownFor(cfg, f.classification) >= 1
    ensures var p, q := Overfull(f, g), EvictedTooEarly(f, g); var steps := AllSteps([p, q]);
      && ValidPolls(cfg, FreshStart(cfg), [p, q]) && BothComplete(cfg, FreshStart(cfg), p, q)
      && !Spaced(RunPolls(cfg, FreshStart(cfg), [p, q]).log, f.id)
      && exists e :: BreaksAt(cfg, FreshStart(cfg), steps, e, f.id) && Evicts(steps[e], f.id)
  {
    hide BreaksAt, IsPoll, Completes, Run, Valid, Apply, ValidPolls, RunPolls, Spaced, AllSteps;
    var start := FreshStart(cfg);
    var ps := [Overfull(f, g), EvictedTooEarly(f, g)];
    SecondRequest(cfg, f, g);
    FirstAndThird(RunPolls(cfg, start, ps).log, f.id);
    ForwardInTime(cfg, ps[0], ps[1]);
    PollsAreForward(cfg, start, ps);
    PollsAreSteps(cfg, start, ps);
    var e := NotSpacedBreaks(cfg, start, AllSteps(ps), f.id);
    BreaksInRange(cfg, start, AllSteps(ps), e, f.id);
    OnlyEvictionBreaks(cfg, AllSteps(ps), e, f.id);
  }

  lemma FirstAndThird(log: seq<Attempt>, id: Id)
    requires |log| == 3 && Requests(log[0], id) && Requests(log[2], id)
    requires log[0].message.cooldownUntil.Some? && log[2].message.lastSeen <= log[0].message.cooldownUntil.value
    ensures !Spaced(log, id)
  {
  }

  lemma ForwardInTime(cfg: Config, p: Poll, q: Poll)
    requires p.now >= ZERO_TIME && Run(cfg, FreshStart(cfg), Steps(p)).clock <= q.now
    ensures TimesForward(cfg, FreshStart(cfg), [p, q])
  {
    assert Init([p, q]) == [p] && Last([p, q]) == q && Init([p]) == [] && Last([p]) == p;
  }

  lemma BreaksInRange(cfg: Config, m: Machine, steps: seq<Step>, e: int, id: Id)
    requires BreaksAt(cfg, m, steps, e, id)
    ensures 0 <= e < |steps|
  {
  }

  // ----- a crash before a resolution is saved -----

  lemma ReportLeaves(cfg: Config, m: Machine, f: Finding)
    ensures var n := Apply(cfg, m, Report(f, Acked));
      && n.state.findings.Keys == m.state.findings.Keys + {f.id} && n.state.findings[f.id].status == Ongoing
      && n.state.observations == m.state.observations
      && n.active == m.active + {f.id} && n.dirty && n.lastWrite == m.lastWrite && n.clock == m.clock
  {
    hide MustPublish, Message, Triages, CooldownFor;
  }

  lemma ReportThenSave(cfg: Config, m: Machine, f: Finding, now: Time, ok: bool)
    requires OnlyCap(cfg) && cfg.maxFindings <= 0 && WellMade(cfg.namespace, f) && now > ZERO_TIME
    requires m.state.observations == map[] && m.state.findings.Keys <= {f.id} && m.lastWrite == ZERO_TIME
    ensures var p := PollOf(now, [f], true, [], {}, [Save(now, ok)]);
      && IsPoll(cfg, m, p) && Completes(cfg, m, p) && AllComplete(p.results) && AllAcked(p.reports)
        && AllAcked(p.resolves)
      && Run(cfg, m, Steps(p)) == Apply(cfg, Apply(cfg, Begun(m, now, true), Report(f, Acked)), Save(now, ok))
  {
    hide Apply, IsPoll, Completes, Script, AllComplete, Run, Valid;
    var p := PollOf(now, [f], true, [], {}, [Save(now, ok)]);
    ReportsOf(cfg, m, p, [f], true);
    AcksOfOne(cfg, Begun(m, now, true), f);
    ReportLeaves(cfg, Begun(m, now, true), f);
    var k := AfterReports(cfg, m, p);
    assert Missing(k) == {};
    NoneLeft(cfg, k, p.resolves);
    assert k.state.findings - {} == k.state.findings;
    assert WithoutFindings(k, {}) == k;
    EndOf(cfg, m, p, ok);
  }

  /** A complete poll that reports nothing and resolves f, while the throttle holds the save back. */
  lemma ResolveUnsaved(cfg: Config, m: Machine, id: Id)
    requires OnlyCap(cfg) && cfg.maxFindings <= 0
    requires m.state.observations == map[] && m.state.findings.Keys == {id} && m.state.findings[id].status == Ongoing
    requires m.lastWrite == 1 && cfg.stateWriteInterval > 1
    ensures var p := PollOf(2, [], true, [Resolve(id, Acked)], {}, []);
      && IsPoll(cfg, m, p) && Completes(cfg, m, p)
      && Run(cfg, m, Steps(p)) == Apply(cfg, Begun(m, 2, true), Resolve(id, Acked))
  {
    var p := PollOf(2, [], true, [Resolve(id, Acked)], {}, []);
    var b := Begun(m, 2, true);
    ReportsOf(cfg, m, p, [], true);
    RunsNone(cfg, b);
    assert Missing(b) == {id};
    assert p.resolves[0] == Resolve(id, Acked);
    RunSingle(cfg, b, Resolve(id, Acked));
    var k := AfterResolves(cfg, m, p);
    assert k.lastWrite == 1 && k.clock == 2;
    assert k.state.findings - {} == k.state.findings;
    hide Apply;
    assert WithoutFindings(k, {}) == k;
    EndOf(cfg, m, p, false);
  }

  lemma RunsNone(cfg: Config, m: Machine)
    ensures Run(cfg, m, Acks([])) == m
  {
  }

  /** A restart can undo convergence: f is reported and saved, then resolved, and the process crashes before the
      throttle lets the resolution be saved. When f comes back, the new process takes it for published, so a
      complete and acknowledged poll that reports f leaves the consumer believing it resolved. */
  lemma UnsavedResolutionIsForgotten(cfg: Config, f: Finding)
    requires OnlyCap(cfg) && cfg.maxFindings <= 0 && !cfg.triageEnabled && cfg.stateWriteInterval > 1
    requires WellMade(cfg.namespace, f)
    ensures var ps := [PollOf(1, [f], true, [], {}, [Save(1, true)]),
      PollOf(2, [], true, [Resolve(f.id, Acked)], {}, [])];
      var q := PollOf(3, [f], true, [], {}, [Save(3, false)]);
      var m := Restarted(RunPolls(cfg, FreshStart(cfg), ps));
      && ValidPolls(cfg, FreshStart(cfg), ps) && BothComplete(cfg, FreshStart(cfg), ps[0], ps[1])
      && IsPoll(cfg, m, q) && Completes(cfg, m, q)
      && AllComplete(q.results) && AllAcked(q.reports) && AllAcked(q.resolves)
      && ReportedIds(q.suppressions, q.results) == {f.id}
      && OngoingIds(Run(cfg, m, Steps(q)).log) == {}
  {
    var start := FreshStart(cfg);
    var p1, p2 := PollOf(1, [f], true, [], {}, [Save(1, true)]), PollOf(2, [], true, [Resolve(f.id, Acked)], {}, []);
    var b1 := Begun(start, 1, true);
    ReportThenSave(cfg, start, f, 1, true);
    NewReport(cfg, b1, f);
    assert b1.log == [] && OngoingIds([]) == {};
    var m1 := Run(cfg, start, Steps(p1));
    assert m1.saved == m1.state && m1.lastWrite == 1 && OngoingIds(m1.log) == {f.id};
    ResolveUnsaved(cfg, m1, f.id);
    AckedResolveTells(cfg, Begun(m1, 2, true), f.id);
    TwoPolls(cfg, start, p1, p2);
    var m2 := Run(cfg, m1, Steps(p2));
    assert m2.saved == m1.state && OngoingIds(m2.log) == {};
    var m := Restarted(m2);
    ReportThenSave(cfg, m, f, 3, false);
    AckedReportTells(cfg, Begun(m, 3, true), f);
    KnownIsNotPublished(cfg, m, f);
    ReportedOne(f, true);
    FailedSave(cfg, Apply(cfg, Begun(m, 3, true), Report(f, Acked)), 3);
  }

  lemma KnownIsNotPublished(cfg: Config, m: Machine, f: Finding)
    requires !cfg.triageEnabled && f.id in m.state.findings
    requires m.state.findings[f.id] == ReportedEntry(cfg, map[], f, 1, Acked)
    ensures !MustPublish(cfg, m.state.findings, f, 3)
  {
  }
}
