/** A complete poll whose publishes are all acknowledged repairs whatever earlier failures did. */
module Convergence {
  import opened Base
  import opened Findings
  import opened Suppression
  import opened Protocol
  import opened Consumer

  // ----- which ids a list of steps reports -----

  ghost function Named(steps: seq<Step>): set<Id> {
    set i | 0 <= i < |steps| && steps[i].Report? :: steps[i].finding.id
  }

  lemma NamedConcat(a: seq<Step>, b: seq<Step>)
    ensures Named(a + b) == Named(a) + Named(b)
  {
    var s := a + b;
    assert forall i :: 0 <= i < |a| ==> s[i] == a[i];
    assert forall i :: 0 <= i < |b| ==> s[|a| + i] == b[i];
    forall id | id in Named(a) + Named(b) ensures id in Named(s) {
      if id in Named(a) {
        var i :| 0 <= i < |a| && a[i].Report? && a[i].finding.id == id;
        assert s[i].finding.id == id;
      } else {
        var i :| 0 <= i < |b| && b[i].Report? && b[i].finding.id == id;
        assert s[|a| + i].finding.id == id;
      }
    }
  }

  lemma NamedErased(steps: seq<Step>)
    ensures Named(EraseAll(steps)) == Named(steps)
  {
    forall id | id in Named(steps) ensures id in Named(EraseAll(steps)) {
      var i :| 0 <= i < |steps| && steps[i].Report? && steps[i].finding.id == id;
      assert EraseAll(steps)[i].finding.id == id;
    }
  }

  ghost function ReportedOf(suppressions: set<string>, findings: seq<Finding>): set<Id> {
    set j | 0 <= j < |findings| && !IsSuppressed(suppressions, findings[j]) :: findings[j].id
  }

  lemma ReportedOfSnoc(suppressions: set<string>, findings: seq<Finding>)
    requires findings != []
    ensures ReportedOf(suppressions, findings) == ReportedOf(suppressions, Init(findings))
              + (if IsSuppressed(suppressions, Last(findings)) then {} else {Last(findings).id})
  {
    var init := Init(findings);
    assert Last(findings) == findings[|findings| - 1];
    forall id | id in ReportedOf(suppressions, init) ensures id in ReportedOf(suppressions, findings) {
      var j :| 0 <= j < |init| && !IsSuppressed(suppressions, init[j]) && init[j].id == id;
      assert findings[j].id == id;
    }
  }

  lemma NamedOne(f: Finding, o: Outcome)
    ensures Named([Report(f, o)]) == {f.id}
  {
    assert [Report(f, o)][0].finding.id == f.id;
  }

  lemma {:induction false} NamedPrompts(suppressions: set<string>, findings: seq<Finding>)
    ensures Named(Prompts(suppressions, findings)) == ReportedOf(suppressions, findings)
    ensures forall s :: s in Prompts(suppressions, findings) ==> s.Report?
  {
    if findings != [] {
      NamedPrompts(suppressions, Init(findings));
      ReportedOfSnoc(suppressions, findings);
      if IsSuppressed(suppressions, Last(findings)) {
        assert Prompts(suppressions, findings) == Prompts(suppressions, Init(findings));
      } else {
        NamedOne(Last(findings), Acked);
        NamedConcat(Prompts(suppressions, Init(findings)), [Report(Last(findings), Acked)]);
      }
    }
  }

  lemma ReportedIdsSnoc(suppressions: set<string>, results: seq<CheckResult>)
    requires results != []
    ensures ReportedIds(suppressions, results)
         == ReportedIds(suppressions, Init(results)) + ReportedOf(suppressions, Last(results).findings)
  {
    var init, r := Init(results), Last(results);
    assert r == results[|results| - 1];
    forall id | id in ReportedIds(suppressions, init) ensures id in ReportedIds(suppressions, results) {
      var i, j :| 0 <= i < |init| && 0 <= j < |init[i].findings|
                  && !IsSuppressed(suppressions, init[i].findings[j]) && init[i].findings[j].id == id;
      assert results[i].findings[j].id == id;
    }
    forall id | id in ReportedOf(suppressions, r.findings) ensures id in ReportedIds(suppressions, results) {
      var j :| 0 <= j < |r.findings| && !IsSuppressed(suppressions, r.findings[j]) && r.findings[j].id == id;
      assert results[|results| - 1].findings[j].id == id;
    }
  }

  lemma {:induction false} NamedScript(suppressions: set<string>, results: seq<CheckResult>)
    ensures Named(Script(suppressions, results)) == ReportedIds(suppressions, results)
    ensures forall s :: s in Script(suppressions, results) ==> s.Report? || s.Accept?
  {
    if results != [] {
      var r := Last(results);
      var accept, prompts := [Accept(r.observations, r.complete)], Prompts(suppressions, r.findings);
      NamedScript(suppressions, Init(results));
      NamedPrompts(suppressions, r.findings);
      ReportedIdsSnoc(suppressions, results);
      NamedConcat(Script(suppressions, Init(results)), accept + prompts);
      NamedConcat(accept, prompts);
      assert Named(accept) == {};
    }
  }

  /** The reports of a poll are reports and accepts, and they name exactly the reported ids. */
  lemma PollReports(p: Poll)
    requires EraseAll(p.reports) == Script(p.suppressions, p.results)
    ensures Named(p.reports) == ReportedIds(p.suppressions, p.results)
    ensures forall i :: 0 <= i < |p.reports| ==> p.reports[i].Report? || p.reports[i].Accept?
  {
    NamedErased(p.reports);
    NamedScript(p.suppressions, p.results);
    forall i | 0 <= i < |p.reports| ensures p.reports[i].Report? || p.reports[i].Accept? {
      assert EraseAll(p.reports)[i] in Script(p.suppressions, p.results);
    }
  }

  // ----- the three parts of a poll -----

  predicate AllAcked(steps: seq<Step>) {
    forall i :: 0 <= i < |steps| && (steps[i].Report? || steps[i].Resolve?) ==> steps[i].outcome == Acked
  }

  predicate Reporting(steps: seq<Step>) {
    forall i :: 0 <= i < |steps| ==> steps[i].Report? || steps[i].Accept?
  }

  /** From m to n entries and beliefs changed for these ids only, and their entries are ongoing and current. */
  ghost predicate Touches(m: Machine, n: Machine, ids: set<Id>) {
    && n.active == m.active + ids
    && n.clock == m.clock
    && n.state.findings.Keys == m.state.findings.Keys + ids
    && (forall id :: id in ids ==> n.state.findings[id].status == Ongoing && n.state.findings[id].lastSeen == m.clock)
    && (forall id :: id in m.state.findings && id !in ids ==> n.state.findings[id] == m.state.findings[id])
    && OngoingIds(n.log) - ids == OngoingIds(m.log) - ids
  }

  lemma AppendTellsOnlyItsId(log: seq<Attempt>, a: Attempt)
    ensures OngoingIds(log + [a]) - {a.message.id} == OngoingIds(log) - {a.message.id}
  {
    ViewAppend(log, a);
  }

  lemma ReportTouches(cfg: Config, m: Machine, f: Finding, o: Outcome)
    ensures Touches(m, Apply(cfg, m, Report(f, o)), {f.id})
  {
    var a := Attempt(Message(cfg, EntryFor(m.state.findings, f, m.clock), f, m.clock), o);
    assert a.message.id == f.id;
    AppendTellsOnlyItsId(m.log, a);
  }

  lemma TouchesChain(m: Machine, k: Machine, n: Machine, a: set<Id>, b: set<Id>)
    requires Touches(m, k, a) && Touches(k, n, b)
    ensures Touches(m, n, a + b)
  {
    forall id | id !in a + b ensures id in OngoingIds(n.log) <==> id in OngoingIds(m.log) {
      assert id in OngoingIds(n.log) <==> id in OngoingIds(n.log) - b;
      assert id in OngoingIds(k.log) <==> id in OngoingIds(k.log) - a;
    }
  }

  /** What reports do to entries and beliefs, however the publisher answers. */
  lemma {:induction false} ReportsTouchOnlyActive(cfg: Config, m: Machine, steps: seq<Step>)
    requires Reporting(steps)
    ensures Touches(m, Run(cfg, m, steps), Named(steps))
  {
    if steps != [] {
      var init, step := Init(steps), Last(steps);
      ReportsTouchOnlyActive(cfg, m, init);
      assert steps == init + [step];
      NamedConcat(init, [step]);
      var k := Run(cfg, m, init);
      if step.Report? {
        assert Named([step]) == {step.finding.id} by { assert [step][0].finding.id == step.finding.id; }
        ReportTouches(cfg, k, step.finding, step.outcome);
        TouchesChain(m, k, Run(cfg, m, steps), Named(init), {step.finding.id});
      } else {
        assert Named([step]) == {} && Named(steps) == Named(init);
      }
    }
  }

  lemma {:induction false} AckedReportsLeaveNoMark(cfg: Config, m: Machine, steps: seq<Step>)
    requires Reporting(steps) && AllAcked(steps)
    ensures forall id :: id in Named(steps) ==>
      id in Run(cfg, m, steps).state.findings && Run(cfg, m, steps).state.findings[id].lastPublishFailed.None?
  {
    if steps != [] {
      var init, step := Init(steps), Last(steps);
      assert AllAcked(init) && step == steps[|steps| - 1];
      AckedReportsLeaveNoMark(cfg, m, init);
      assert steps == init + [step];
      NamedConcat(init, [step]);
    }
  }

  ghost function ResolvedBy(steps: seq<Step>): set<Id> {
    set i | 0 <= i < |steps| && steps[i].Resolve? :: steps[i].id
  }

  lemma ResolvedBySnoc(steps: seq<Step>)
    requires steps != [] && Last(steps).Resolve?
    ensures ResolvedBy(steps) == ResolvedBy(Init(steps)) + {Last(steps).id}
  {
    var init := Init(steps);
    assert Last(steps) == steps[|steps| - 1];
    forall id | id in ResolvedBy(init) ensures id in ResolvedBy(steps) {
      var i :| 0 <= i < |init| && init[i].Resolve? && init[i].id == id;
      assert steps[i].id == id;
    }
  }

  lemma AckedResolveTells(cfg: Config, m: Machine, id: Id)
    requires Enabled(cfg, m, Resolve(id, Acked))
    ensures OngoingIds(Apply(cfg, m, Resolve(id, Acked)).log) == OngoingIds(m.log) - {id}
  {
    ViewAppend(m.log, Attempt(ResolvedMessage(cfg, id, m.state.findings[id], m.clock), Acked));
  }

  lemma {:induction false} AckedResolvesTell(cfg: Config, m: Machine, steps: seq<Step>)
    requires forall i :: 0 <= i < |steps| ==> steps[i].Resolve? && steps[i].outcome == Acked
    requires Valid(cfg, m, steps)
    ensures OngoingIds(Run(cfg, m, steps).log) == OngoingIds(m.log) - ResolvedBy(steps)
  {
    if steps != [] {
      var init, step := Init(steps), Last(steps);
      assert step == steps[|steps| - 1] && forall i :: 0 <= i < |init| ==> init[i] == steps[i];
      AckedResolvesTell(cfg, m, init);
      AckedResolveTells(cfg, Run(cfg, m, init), step.id);
      ResolvedBySnoc(steps);
    }
  }

  lemma {:induction false} UpkeepKeepsLog(cfg: Config, m: Machine, steps: seq<Step>)
    requires forall i :: 0 <= i < |steps| ==> Upkeep(steps[i])
    ensures Run(cfg, m, steps).log == m.log
    ensures Run(cfg, m, steps).clock == m.clock
  {
    if steps != [] {
      assert Upkeep(steps[|steps| - 1]);
      UpkeepKeepsLog(cfg, m, Init(steps));
    }
  }

  /** The ids that the poll reported are believed ongoing once its reports are acknowledged. */
  lemma ReportedAreBelieved(cfg: Config, m: Machine, steps: seq<Step>)
    requires Informed(m) && Valid(cfg, m, steps) && Reporting(steps) && AllAcked(steps)
    ensures Named(steps) <= OngoingIds(Run(cfg, m, steps).log)
  {
    ReportsTouchOnlyActive(cfg, m, steps);
    AckedReportsLeaveNoMark(cfg, m, steps);
    RunKeepsInformed(cfg, m, steps);
    var n := Run(cfg, m, steps);
    forall id | id in Named(steps) ensures id in OngoingIds(n.log) {
      assert Agrees(id, n.state.findings[id], n.log);
    }
  }

  /** Of the ids believed ongoing and not reported, exactly those with an entry are missing and get resolved. */
  lemma BelievedAndUnreported(m: Machine, n: Machine, active: set<Id>)
    requires Informed(m) && m.active == {} && Touches(m, n, active)
    ensures (OngoingIds(m.log) - active) - Missing(n) == Orphans(m) - active
  {
    forall id | id in OngoingIds(m.log) - active ensures id in Missing(n) <==> id in m.state.findings {
      if id in m.state.findings {
        assert Agrees(id, m.state.findings[id], m.log);
      }
    }
  }

  lemma ResolvesCover(steps: seq<Step>, ids: set<Id>)
    requires ResolvesEach(steps, ids)
    ensures ResolvedBy(steps) == ids
  {
    forall id | id in ids ensures id in ResolvedBy(steps) {
      var i :| 0 <= i < |steps| && steps[i].id == id;
    }
  }

  lemma PruningKeepsLog(cfg: Config, m: Machine, p: Poll)
    requires IsPoll(cfg, m, p)
    ensures Run(cfg, m, Steps(p)).log == AfterResolves(cfg, m, p).log
  {
    var k := AfterResolves(cfg, m, p);
    PollParts(cfg, m, p);
    PruningParts(cfg, k, p);
    CappedKeepsLog(cfg, k, p.capObservations, p.capFindings);
    UpkeepKeepsLog(cfg, Capped(cfg, k, p.capObservations, p.capFindings), p.saving);
  }

  lemma CappedKeepsLog(cfg: Config, k: Machine, keys: set<string>, ids: set<Id>)
    ensures Capped(cfg, k, keys, ids).log == k.log
  {
  }

  lemma MissingAreResolved(cfg: Config, m: Machine, p: Poll)
    requires IsPoll(cfg, m, p) && AllComplete(p.results) && AllAcked(p.resolves)
    ensures OngoingIds(AfterResolves(cfg, m, p).log)
         == OngoingIds(AfterReports(cfg, m, p).log) - Missing(AfterReports(cfg, m, p))
  {
    PollParts(cfg, m, p);
    ResolvesCover(p.resolves, Missing(AfterReports(cfg, m, p)));
    AckedResolvesTell(cfg, AfterReports(cfg, m, p), p.resolves);
  }

  /** Where beliefs and entries stand after the acknowledged reports of a poll. */
  lemma AfterAckedReports(cfg: Config, m: Machine, p: Poll)
    requires Informed(m) && IsPoll(cfg, m, p) && AllAcked(p.reports)
    ensures var n, active := AfterReports(cfg, m, p), ReportedIds(p.suppressions, p.results);
      && active <= OngoingIds(n.log)
      && OngoingIds(n.log) - active == OngoingIds(m.log) - active
      && Missing(n) !! active
      && (OngoingIds(m.log) - active) - Missing(n) == Orphans(m) - active
  {
    PollParts(cfg, m, p);
    PollReports(p);
    var begun := Apply(cfg, m, Begin(p.now));
    ReportsTouchOnlyActive(cfg, begun, p.reports);
    ReportedAreBelieved(cfg, begun, p.reports);
    BelievedAndUnreported(begun, AfterReports(cfg, m, p), Named(p.reports));
  }

  lemma RemoveMissing<T>(before: set<T>, after: set<T>, active: set<T>, missing: set<T>, orphans: set<T>)
    requires active <= after && after - active == before - active && missing !! active
    requires (before - active) - missing == orphans - active
    ensures after - missing == active + orphans
  {
    assert after == active + (after - active);
    assert after - missing == active + ((after - active) - missing);
    assert active + (orphans - active) == active + orphans;
  }

  /** After a complete, fully acknowledged poll the consumer holds ongoing exactly what the poll reported,
      and besides that the orphans of earlier evictions that the poll did not report. */
  lemma PollConverges(cfg: Config, m: Machine, p: Poll)
    requires Informed(m) && IsPoll(cfg, m, p)
    requires AllComplete(p.results) && AllAcked(p.reports) && AllAcked(p.resolves)
    ensures OngoingIds(Run(cfg, m, Steps(p)).log) == ReportedIds(p.suppressions, p.results) + Orphans(m)
  {
    PruningKeepsLog(cfg, m, p);
    MissingAreResolved(cfg, m, p);
    AfterAckedReports(cfg, m, p);
    var n := AfterReports(cfg, m, p);
    RemoveMissing(OngoingIds(m.log), OngoingIds(n.log), ReportedIds(p.suppressions, p.results), Missing(n), Orphans(m));
  }

  lemma MissingBefore(m: Machine, n: Machine, ids: set<Id>)
    requires m.active == {} && Touches(m, n, ids)
    ensures Missing(n) == WithStatus(m.state.findings, Ongoing) - ids
  {
  }

  /** The ids with a report that had to be published where the run had come to. */
  ghost function PublishedBy(cfg: Config, m: Machine, steps: seq<Step>): set<Id> {
    if steps == [] then {}
    else
      var k, step := Run(cfg, m, Init(steps)), Last(steps);
      PublishedBy(cfg, m, Init(steps))
      + (if step.Report? && MustPublish(cfg, k.state.findings, step.finding, k.clock) then {step.finding.id} else {})
  }

  lemma AckedReportTells(cfg: Config, m: Machine, f: Finding)
    ensures OngoingIds(Apply(cfg, m, Report(f, Acked)).log)
         == OngoingIds(m.log) + (if MustPublish(cfg, m.state.findings, f, m.clock) then {f.id} else {})
  {
    ViewAppend(m.log, Attempt(Message(cfg, EntryFor(m.state.findings, f, m.clock), f, m.clock), Acked));
  }

  /** Acknowledged reports add exactly the published ids to what the consumer holds ongoing. */
  lemma {:induction false} AckedReportsTell(cfg: Config, m: Machine, steps: seq<Step>)
    requires Reporting(steps) && AllAcked(steps)
    ensures OngoingIds(Run(cfg, m, steps).log) == OngoingIds(m.log) + PublishedBy(cfg, m, steps)
    ensures PublishedBy(cfg, m, steps) <= Named(steps)
  {
    if steps != [] {
      var init, step := Init(steps), Last(steps);
      assert step == steps[|steps| - 1] && forall i :: 0 <= i < |init| ==> init[i] == steps[i];
      AckedReportsTell(cfg, m, init);
      if step.Report? {
        AckedReportTells(cfg, Run(cfg, m, init), step.finding);
        assert steps[|steps| - 1].finding.id in Named(steps);
      }
      forall id | id in Named(init) ensures id in Named(steps) {
        var i :| 0 <= i < |init| && init[i].Report? && init[i].finding.id == id;
        assert steps[i].finding.id == id;
      }
    }
  }

  /** The two things that can keep a complete, acknowledged poll from converging: an id believed ongoing that
      it neither reports nor can resolve, and a reported id that it has no reason to publish. */
  ghost predicate WillConverge(cfg: Config, m: Machine, p: Poll) {
    var believed, reported := OngoingIds(m.log), ReportedIds(p.suppressions, p.results);
    && believed - WithStatus(m.state.findings, Ongoing) <= reported
    && reported <= believed + PublishedBy(cfg, Apply(cfg, m, Begin(p.now)), p.reports)
  }

  lemma SameSets<T>(believed: set<T>, published: set<T>, ongoing: set<T>, reported: set<T>)
    requires published <= reported
    ensures (believed + published) - (ongoing - reported) == reported
            <==> believed - ongoing <= reported && reported <= believed + published
  {
    if (believed + published) - (ongoing - reported) == reported {
      assert forall x :: x in believed - ongoing ==> x in (believed + published) - (ongoing - reported);
      assert forall x :: x in reported ==> x in (believed + published) - (ongoing - reported);
    }
  }

  /** From any machine, with any beliefs of the consumer: a complete, fully acknowledged poll converges exactly
      when every id believed ongoing without an ongoing entry is reported, and every reported id is believed
      ongoing already or has a report that must be published. */
  lemma PollConvergesExactly(cfg: Config, m: Machine, p: Poll)
    requires IsPoll(cfg, m, p)
    requires AllComplete(p.results) && AllAcked(p.reports) && AllAcked(p.resolves)
    ensures OngoingIds(Run(cfg, m, Steps(p)).log) == ReportedIds(p.suppressions, p.results) <==> WillConverge(cfg, m, p)
  {
    var begun, n := Apply(cfg, m, Begin(p.now)), AfterReports(cfg, m, p);
    PruningKeepsLog(cfg, m, p);
    MissingAreResolved(cfg, m, p);
    PollReports(p);
    PollParts(cfg, m, p);
    AckedReportsTell(cfg, begun, p.reports);
    ReportsTouchOnlyActive(cfg, begun, p.reports);
    MissingBefore(begun, n, Named(p.reports));
    SameSets(OngoingIds(m.log), PublishedBy(cfg, begun, p.reports), WithStatus(m.state.findings, Ongoing),
      Named(p.reports));
  }

  /** From a fresh start, through any mix of outcomes: while the cap had room, the next complete, fully
      acknowledged poll leaves the consumer with exactly the reported ids ongoing. */
  lemma Convergence(cfg: Config, history: seq<Poll>, p: Poll)
    requires ValidPolls(cfg, FreshStart(cfg), history + [p])
    requires Roomy(cfg, FreshStart(cfg), AllSteps(history))
    requires AllComplete(p.results) && AllAcked(p.reports) && AllAcked(p.resolves)
    ensures OngoingIds(RunPolls(cfg, FreshStart(cfg), history + [p]).log)
         == ReportedIds(p.suppressions, p.results)
  {
    var start := FreshStart(cfg);
    assert Init(history + [p]) == history && Last(history + [p]) == p;
    PollsAreSteps(cfg, start, history);
    assert Orphans(start) == {};
    RunKeepsInformed(cfg, start, AllSteps(history));
    RunMakesNoOrphan(cfg, start, AllSteps(history));
    PollConverges(cfg, RunPolls(cfg, start, history), p);
  }

  /** In general the poll converges exactly when it reports every orphan itself. */
  lemma ConvergenceExactly(cfg: Config, history: seq<Poll>, p: Poll)
    requires ValidPolls(cfg, FreshStart(cfg), history + [p])
    requires AllComplete(p.results) && AllAcked(p.reports) && AllAcked(p.resolves)
    ensures var before := RunPolls(cfg, FreshStart(cfg), history);
      OngoingIds(RunPolls(cfg, FreshStart(cfg), history + [p]).log)
        == ReportedIds(p.suppressions, p.results)
      <==> Orphans(before) <= ReportedIds(p.suppressions, p.results)
  {
    var start := FreshStart(cfg);
    assert Init(history + [p]) == history && Last(history + [p]) == p;
    PollsAreSteps(cfg, start, history);
    RunKeepsInformed(cfg, start, AllSteps(history));
    PollConverges(cfg, RunPolls(cfg, start, history), p);
  }
}
