/** Identity, time and resolution over the life of a finding entry. */
module Lifecycle {
  import opened Base
  import opened Findings
  import opened States
  import opened Protocol
  import opened Consumer
  import opened Convergence

  // ----- every entry and every message says who it is about -----

  predicate Scored(score: int, c: Classification) {
    0 <= score <= 100 && c == ClassificationForScore(score)
  }

  predicate TrueEntry(cfg: Config, id: Id, e: FindingState) {
    && id == FindingId(cfg.namespace, e.kind, e.name, e.check, e.reason)
    && (e.status == Ongoing ==> Scored(e.score, e.classification))
  }

  predicate TrueMessage(cfg: Config, f: Finding) {
    && f.namespace == cfg.namespace
    && f.id == FindingId(f.namespace, f.kind, f.name, f.check, f.reason)
    && (f.status == Ongoing ==> Scored(f.score, f.classification))
  }

  ghost predicate Truthful(cfg: Config, m: Machine) {
    && (forall id :: id in m.state.findings ==> TrueEntry(cfg, id, m.state.findings[id]))
    && (forall i :: 0 <= i < |m.log| ==> TrueMessage(cfg, m.log[i].message))
  }

  lemma ReportKeepsTruthful(cfg: Config, m: Machine, f: Finding, o: Outcome)
    requires Truthful(cfg, m) && WellMade(cfg.namespace, f)
    ensures Truthful(cfg, Apply(cfg, m, Report(f, o)))
  {

  }

  lemma StepKeepsTruthful(cfg: Config, m: Machine, step: Step)
    requires Truthful(cfg, m) && Enabled(cfg, m, step)
    ensures Truthful(cfg, Apply(cfg, m, step))
  {
    if step.Report? {
      ReportKeepsTruthful(cfg, m, step.finding, step.outcome);
    }
  }

  /** Every published message, the resolved ones rebuilt from state included, has the id of its own tuple. */
  lemma {:induction false} RunKeepsTruthful(cfg: Config, m: Machine, steps: seq<Step>)
    requires Truthful(cfg, m) && Valid(cfg, m, steps)
    ensures Truthful(cfg, Run(cfg, m, steps))
  {
    if steps != [] {
      RunKeepsTruthful(cfg, m, Init(steps));
      StepKeepsTruthful(cfg, Run(cfg, m, Init(steps)), Last(steps));
    }
  }

  /** The consumer's message is the last delivered one of its id. */
  lemma {:induction false} ViewIsLastDelivered(log: seq<Attempt>, id: Id)
    ensures id in View(log) <==> exists i :: 0 <= i < |log| && Delivered(log[i]) && log[i].message.id == id
    ensures id in View(log) ==> exists i ::
      && 0 <= i < |log| && Delivered(log[i]) && log[i].message.id == id && log[i].message == View(log)[id]
      && forall j :: i < j < |log| && Delivered(log[j]) ==> log[j].message.id != id
  {
    if log != [] {
      var init, a := Init(log), Last(log);
      ViewIsLastDelivered(init, id);
      assert a == log[|log| - 1] && forall i :: 0 <= i < |init| ==> init[i] == log[i];
      if Delivered(a) && a.message.id == id {
        assert log[|log| - 1].message == View(log)[id];
      } else if id in View(log) {
        assert View(log)[id] == View(init)[id];
        var i :| 0 <= i < |init| && Delivered(init[i]) && init[i].message.id == id && init[i].message == View(init)[id]
                 && forall j :: i < j < |init| && Delivered(init[j]) ==> init[j].message.id != id;
        assert log[i].message == View(log)[id];
      }
    }
  }

  /** For every ongoing entry whose last publish did not fail, the last message delivered for its id is an
      ongoing one of the entry's classification; its score is at least the entry's and at most 20 above it. */
  lemma ConsumerNeverUnderInformed(cfg: Config, steps: seq<Step>, id: Id)
    requires Valid(cfg, FreshStart(cfg), steps)
    requires id in Run(cfg, FreshStart(cfg), steps).state.findings
    requires Run(cfg, FreshStart(cfg), steps).state.findings[id].status == Ongoing
    requires Run(cfg, FreshStart(cfg), steps).state.findings[id].lastPublishFailed.None?
    ensures var m := Run(cfg, FreshStart(cfg), steps);
      var e := m.state.findings[id];
      exists i ::
        && 0 <= i < |m.log| && Delivered(m.log[i]) && m.log[i].message.id == id
        && (forall j :: i < j < |m.log| && Delivered(m.log[j]) ==> m.log[j].message.id != id)
        && m.log[i].message.status == Ongoing
        && m.log[i].message.classification == e.classification
        && e.score <= m.log[i].message.score <= e.score + 20
  {
    var m := Run(cfg, FreshStart(cfg), steps);
    var e := m.state.findings[id];
    RunKeepsInformed(cfg, FreshStart(cfg), steps);
    RunKeepsTruthful(cfg, FreshStart(cfg), steps);
    assert Agrees(id, e, m.log) && TrueEntry(cfg, id, e);
    ViewIsLastDelivered(m.log, id);
    var i :| 0 <= i < |m.log| && Delivered(m.log[i]) && m.log[i].message.id == id && m.log[i].message == View(m.log)[id]
             && forall j :: i < j < |m.log| && Delivered(m.log[j]) ==> m.log[j].message.id != id;
    assert TrueMessage(cfg, m.log[i].message);
    BandsAreNarrow(m.log[i].message.score, e.score);
  }

  // ----- no repeated resolution -----

  predicate Announces(a: Attempt, id: Id) {
    a.message.id == id && a.message.status == Ongoing
  }

  predicate Settles(a: Attempt, id: Id) {
    a.message.id == id && a.message.status == Resolved && a.outcome == Acked
  }

  /** An acknowledged resolution of the id with no attempt to announce it since. */
  ghost predicate Settled(log: seq<Attempt>, id: Id) {
    exists i :: 0 <= i < |log| && Settles(log[i], id) && forall j :: i < j < |log| ==> !Announces(log[j], id)
  }

  /** Between two acknowledged resolutions lies an attempt to announce the id again. */
  ghost predicate Alternates(log: seq<Attempt>, id: Id) {
    forall i, j :: 0 <= i < j < |log| && Settles(log[i], id) && Settles(log[j], id) ==>
      exists k :: i < k < j && Announces(log[k], id)
  }

  ghost predicate Unsettled(m: Machine, id: Id) {
    && Alternates(m.log, id)
    && (id in m.state.findings && m.state.findings[id].status != Resolved ==> !Settled(m.log, id))
  }

  lemma AppendKeepsAlternation(log: seq<Attempt>, a: Attempt, id: Id)
    requires Alternates(log, id) && (Settles(a, id) ==> !Settled(log, id))
    ensures Alternates(log + [a], id)
  {
    var grown := log + [a];
    forall i, j | 0 <= i < j < |grown| && Settles(grown[i], id) && Settles(grown[j], id)
      ensures exists k :: i < k < j && Announces(grown[k], id)
    {
      if j < |log| {
        assert Settles(log[i], id) && Settles(log[j], id);
        var k :| i < k < j && Announces(log[k], id);
        assert Announces(grown[k], id);
      } else {
        assert Settles(log[i], id);
        var k :| i < k < |log| && Announces(log[k], id);
        assert Announces(grown[k], id);
      }
    }
  }

  lemma AppendUnsettles(log: seq<Attempt>, a: Attempt, id: Id)
    requires Announces(a, id) || (!Settled(log, id) && !Settles(a, id))
    ensures !Settled(log + [a], id)
  {
    var grown := log + [a];
    assert grown[|log|] == a;
    forall i | 0 <= i < |grown| && Settles(grown[i], id)
      ensures exists j :: i < j < |grown| && Announces(grown[j], id)
    {
      assert i < |log| && Settles(log[i], id);
      if Announces(a, id) {
        assert Announces(grown[|log|], id);
      } else {
        var j :| i < j < |log| && Announces(log[j], id);
        assert Announces(grown[j], id);
      }
    }
  }

  lemma ReportKeepsUnsettled(cfg: Config, m: Machine, f: Finding, o: Outcome, id: Id)
    requires Unsettled(m, id)
    ensures Unsettled(Apply(cfg, m, Report(f, o)), id)
  {
    var a := Attempt(Message(cfg, EntryFor(m.state.findings, f, m.clock), f, m.clock), o);
    assert a.message.id == f.id && a.message.status == Ongoing;
    AppendKeepsAlternation(m.log, a, id);
    if Announces(a, id) || !Settled(m.log, id) {
      AppendUnsettles(m.log, a, id);
    }
  }

  lemma ResolveKeepsUnsettled(cfg: Config, m: Machine, r: Id, o: Outcome, id: Id)
    requires Unsettled(m, id) && Enabled(cfg, m, Resolve(r, o))
    ensures Unsettled(Apply(cfg, m, Resolve(r, o)), id)
  {
    var a := Attempt(ResolvedMessage(cfg, r, m.state.findings[r], m.clock), o);
    AppendKeepsAlternation(m.log, a, id);
    if !Settles(a, id) && !Settled(m.log, id) {
      AppendUnsettles(m.log, a, id);
    }
  }

  lemma StepKeepsUnsettled(cfg: Config, m: Machine, step: Step, id: Id)
    requires Unsettled(m, id) && Enabled(cfg, m, step)
    ensures Unsettled(Apply(cfg, m, step), id)
  {
    if step.Report? {
      ReportKeepsUnsettled(cfg, m, step.finding, step.outcome, id);
    } else if step.Resolve? {
      ResolveKeepsUnsettled(cfg, m, step.id, step.outcome, id);
    }
  }

  lemma {:induction false} RunKeepsUnsettled(cfg: Config, m: Machine, steps: seq<Step>, id: Id)
    requires Unsettled(m, id) && Valid(cfg, m, steps)
    ensures Unsettled(Run(cfg, m, steps), id)
  {
    if steps != [] {
      RunKeepsUnsettled(cfg, m, Init(steps), id);
      StepKeepsUnsettled(cfg, Run(cfg, m, Init(steps)), Last(steps), id);
    }
  }

  /** No id is resolved twice without an announcement in between, whatever was evicted meanwhile. */
  lemma NoRepeatedResolution(cfg: Config, steps: seq<Step>, id: Id)
    requires Valid(cfg, FreshStart(cfg), steps)
    ensures Alternates(Run(cfg, FreshStart(cfg), steps).log, id)
  {
    RunKeepsUnsettled(cfg, FreshStart(cfg), steps, id);
  }

  // ----- no premature resolution -----

  /** The ids whose resolution is attempted from this position of the log on. */
  ghost function ResolutionsFrom(log: seq<Attempt>, from: nat): set<Id> {
    set i | from <= i < |log| && log[i].message.status == Resolved :: log[i].message.id
  }

  lemma {:induction false} ReportsOnlyAnnounce(cfg: Config, m: Machine, steps: seq<Step>)
    requires Reporting(steps)
    ensures |m.log| <= |Run(cfg, m, steps).log|
    ensures forall i :: |m.log| <= i < |Run(cfg, m, steps).log| ==> Run(cfg, m, steps).log[i].message.status == Ongoing
  {
    if steps != [] {
      assert Last(steps) == steps[|steps| - 1];
      ReportsOnlyAnnounce(cfg, m, Init(steps));
    }
  }

  lemma {:induction false} ResolvesOnlyResolve(cfg: Config, m: Machine, steps: seq<Step>, from: nat)
    requires forall i :: 0 <= i < |steps| ==> steps[i].Resolve?
    requires Valid(cfg, m, steps) && from <= |m.log|
    ensures |m.log| <= |Run(cfg, m, steps).log|
    ensures ResolutionsFrom(Run(cfg, m, steps).log, from) == ResolutionsFrom(m.log, from) + ResolvedBy(steps)
  {
    if steps != [] {
      var init, step := Init(steps), Last(steps);
      assert step == steps[|steps| - 1] && forall i :: 0 <= i < |init| ==> init[i] == steps[i];
      ResolvesOnlyResolve(cfg, m, init, from);
      var k, n := Run(cfg, m, init), Run(cfg, m, steps);
      ResolveAddsOne(cfg, k, step.id, step.outcome, from);
      ResolvedBySnoc(steps);
    }
  }

  lemma ResolveAddsOne(cfg: Config, m: Machine, id: Id, o: Outcome, from: nat)
    requires id in m.state.findings && from <= |m.log|
    ensures var n := Apply(cfg, m, Resolve(id, o));
      |n.log| == |m.log| + 1 && ResolutionsFrom(n.log, from) == ResolutionsFrom(m.log, from) + {id}
  {
    var n := Apply(cfg, m, Resolve(id, o));
    assert n.log[|m.log|].message.id == id && n.log[|m.log|].message.status == Resolved;
    forall r | r in ResolutionsFrom(m.log, from) ensures r in ResolutionsFrom(n.log, from) {
      var i :| from <= i < |m.log| && m.log[i].message.status == Resolved && m.log[i].message.id == r;
      assert n.log[i] == m.log[i];
    }
  }

  /** A poll attempts to resolve exactly: nothing if some accepted result was incomplete; otherwise the
      entries that were ongoing before it and that no unsuppressed result carried. */
  lemma ResolvesExactlyTheMissing(cfg: Config, m: Machine, p: Poll)
    requires IsPoll(cfg, m, p)
    ensures ResolutionsFrom(Run(cfg, m, Steps(p)).log, |m.log|)
         == if AllComplete(p.results)
            then WithStatus(m.state.findings, Ongoing) - ReportedIds(p.suppressions, p.results) else {}
  {
    PruningKeepsLog(cfg, m, p);
    PollParts(cfg, m, p);
    PollReports(p);
    var begun, n := Apply(cfg, m, Begin(p.now)), AfterReports(cfg, m, p);
    assert begun.log == m.log && begun.state == m.state && begun.active == {};
    hide Apply, Script, Pruning, Steps;
    ReportsTouchOnlyActive(cfg, begun, p.reports);
    ReportsOnlyAnnounce(cfg, begun, p.reports);
    assert ResolutionsFrom(n.log, |m.log|) == {};
    ResolvesOnlyResolve(cfg, n, p.resolves, |m.log|);
    if AllComplete(p.results) {
      ResolvesCover(p.resolves, Missing(n));
      MissingBefore(begun, n, Named(p.reports));
    } else {
      assert ResolvedBy(p.resolves) == {};
    }
  }

  // ----- time -----

  /** The clock never runs backwards in this run. */
  ghost predicate ClockForward(cfg: Config, m: Machine, steps: seq<Step>) {
    steps == [] ||
    (ClockForward(cfg, m, Init(steps))
     && (Last(steps).Begin? ==> Run(cfg, m, Init(steps)).clock <= Last(steps).now))
  }

  lemma {:induction false} ForwardConcat(cfg: Config, m: Machine, a: seq<Step>, b: seq<Step>)
    requires ClockForward(cfg, m, a) && ClockForward(cfg, Run(cfg, m, a), b)
    ensures ClockForward(cfg, m, a + b)
    decreases |b|
  {
    if b == [] {
      assert a + b == a;
    } else {
      assert Init(a + b) == a + Init(b) && Last(a + b) == Last(b);
      ForwardConcat(cfg, m, a, Init(b));
      RunConcat(cfg, m, a, Init(b));
    }
  }

  lemma {:induction false} NoBeginIsForward(cfg: Config, m: Machine, steps: seq<Step>)
    requires forall i :: 0 <= i < |steps| ==> !steps[i].Begin?
    ensures ClockForward(cfg, m, steps)
  {
    if steps != [] {
      assert Last(steps) == steps[|steps| - 1];
      NoBeginIsForward(cfg, m, Init(steps));
    }
  }

  /** Nothing in the state or the log is from the future, and a log is in order of time. */
  ghost predicate Timely(m: Machine) {
    && (forall id :: id in m.state.findings ==> m.state.findings[id].lastSeen <= m.clock)
    && (forall i :: 0 <= i < |m.log| ==> m.log[i].message.lastSeen <= m.clock)
    && (forall i, j :: 0 <= i < j < |m.log| ==> m.log[i].message.lastSeen <= m.log[j].message.lastSeen)
  }

  lemma AppendKeepsOrder(log: seq<Attempt>, a: Attempt, clock: Time)
    requires a.message.lastSeen == clock
    requires forall i :: 0 <= i < |log| ==> log[i].message.lastSeen <= clock
    requires forall i, j :: 0 <= i < j < |log| ==> log[i].message.lastSeen <= log[j].message.lastSeen
    ensures forall i :: 0 <= i < |log + [a]| ==> (log + [a])[i].message.lastSeen <= clock
    ensures forall i, j :: 0 <= i < j < |log + [a]| ==>
      (log + [a])[i].message.lastSeen <= (log + [a])[j].message.lastSeen
  {
  }

  lemma ReportKeepsTimely(cfg: Config, m: Machine, f: Finding, o: Outcome)
    requires Timely(m)
    ensures Timely(Apply(cfg, m, Report(f, o)))
  {
    var a := Attempt(Message(cfg, EntryFor(m.state.findings, f, m.clock), f, m.clock), o);
    AppendKeepsOrder(m.log, a, m.clock);
  }

  lemma StepKeepsTimely(cfg: Config, m: Machine, step: Step)
    requires Timely(m) && (step.Begin? ==> m.clock <= step.now)
    ensures Timely(Apply(cfg, m, step))
  {
    if step.Report? {
      ReportKeepsTimely(cfg, m, step.finding, step.outcome);
    } else if step.Resolve? && step.id in m.state.findings {
      AppendKeepsOrder(m.log, Attempt(ResolvedMessage(cfg, step.id, m.state.findings[step.id], m.clock), step.outcome),
        m.clock);
    }
  }

  lemma {:induction false} RunKeepsTimely(cfg: Config, m: Machine, steps: seq<Step>)
    requires Timely(m) && ClockForward(cfg, m, steps)
    ensures Timely(Run(cfg, m, steps))
  {
    if steps != [] {
      RunKeepsTimely(cfg, m, Init(steps));
      StepKeepsTimely(cfg, Run(cfg, m, Init(steps)), Last(steps));
    }
  }

  /** The entry is never deleted during the run. */
  ghost predicate Lives(cfg: Config, m: Machine, steps: seq<Step>, id: Id) {
    id in Run(cfg, m, steps).state.findings && (steps == [] || Lives(cfg, m, Init(steps), id))
  }

  /** From m to n one lifetime of the entry went on, and every message about it carried its FirstSeen. */
  ghost predicate Continues(m: Machine, n: Machine, id: Id) {
    && id in m.state.findings && id in n.state.findings
    && n.state.findings[id].firstSeen == m.state.findings[id].firstSeen
    && n.state.findings[id].lastSeen >= m.state.findings[id].lastSeen
    && m.log <= n.log
    && forall i :: |m.log| <= i < |n.log| && n.log[i].message.id == id ==>
         n.log[i].message.firstSeen == m.state.findings[id].firstSeen
  }

  lemma StepContinues(cfg: Config, m: Machine, step: Step, id: Id)
    requires Timely(m) && id in m.state.findings && id in Apply(cfg, m, step).state.findings
    ensures Continues(m, Apply(cfg, m, step), id)
  {
    if step.Report? {
      ReportContinues(cfg, m, step.finding, step.outcome, id);
    }
  }

  lemma ReportContinues(cfg: Config, m: Machine, f: Finding, o: Outcome, id: Id)
    requires Timely(m) && id in m.state.findings
    ensures Continues(m, Apply(cfg, m, Report(f, o)), id)
  {
    hide MustPublish, Triages, CooldownFor;
  }

  /** While an entry lives its FirstSeen stays and its LastSeen does not fall. */
  lemma {:induction false} LifetimeIsSteady(cfg: Config, m: Machine, steps: seq<Step>, id: Id)
    requires Timely(m) && ClockForward(cfg, m, steps) && Lives(cfg, m, steps, id)
    ensures Continues(m, Run(cfg, m, steps), id)
  {
    if steps != [] {
      LifetimeIsSteady(cfg, m, Init(steps), id);
      RunKeepsTimely(cfg, m, Init(steps));
      StepContinues(cfg, Run(cfg, m, Init(steps)), Last(steps), id);
    }
  }
}
