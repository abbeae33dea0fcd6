/** What a consumer that keeps the last delivered message of each id believes, and how a poll
    brings its beliefs in line with the cluster. */
module Consumer {
  import opened Base
  import opened Findings
  import opened States
  import opened Protocol

  predicate Delivered(a: Attempt) {
    a.outcome != Lost
  }

  /** The consumer: a fold of the delivered messages by id. */
  function View(log: seq<Attempt>): map<Id, Finding> {
    if log == [] then map[]
    else if Delivered(Last(log)) then View(Init(log))[Last(log).message.id := Last(log).message]
    else View(Init(log))
  }

  predicate Believes(log: seq<Attempt>, id: Id, s: Status) {
    id in View(log) && View(log)[id].status == s
  }

  ghost function OngoingIds(log: seq<Attempt>): set<Id> {
    set id | id in View(log) && View(log)[id].status == Ongoing
  }

  lemma ViewAppend(log: seq<Attempt>, a: Attempt)
    ensures View(log + [a]) == if Delivered(a) then View(log)[a.message.id := a.message] else View(log)
  {
    assert Init(log + [a]) == log && Last(log + [a]) == a;
  }

  /** An entry and the consumer agree: resolved means told so; ongoing without a failure mark means the
      consumer holds an ongoing message of the same classification with at least the entry's score. */
  predicate Agrees(id: Id, e: FindingState, log: seq<Attempt>) {
    match e.status
    case Resolved => Believes(log, id, Resolved)
    case Ongoing =>
      e.lastPublishFailed.None? ==>
        && Believes(log, id, Ongoing)
        && View(log)[id].classification == e.classification
        && View(log)[id].score >= e.score
    case OtherStatus(_) => false
  }

  ghost predicate Informed(m: Machine) {
    forall id :: id in m.state.findings ==> Agrees(id, m.state.findings[id], m.log)
  }

  /** Agreement depends on the entry and on the consumer's message for this id only. */
  lemma AgreesElsewhere(id: Id, e: FindingState, log: seq<Attempt>, a: Attempt)
    requires Agrees(id, e, log) && a.message.id != id
    ensures Agrees(id, e, log + [a])
  {
    ViewAppend(log, a);
  }

  lemma ReportedAgrees(cfg: Config, m: Machine, f: Finding, o: Outcome)
    requires f.id in m.state.findings ==> Agrees(f.id, m.state.findings[f.id], m.log)
    ensures var n := Apply(cfg, m, Report(f, o)); Agrees(f.id, n.state.findings[f.id], n.log)
  {
    ViewAppend(m.log, Attempt(Message(cfg, EntryFor(m.state.findings, f, m.clock), f, m.clock), o));
  }

  lemma ReportKeepsInformed(cfg: Config, m: Machine, f: Finding, o: Outcome)
    requires Informed(m)
    ensures Informed(Apply(cfg, m, Report(f, o)))
  {
    ReportedAgrees(cfg, m, f, o);
    var a := Attempt(Message(cfg, EntryFor(m.state.findings, f, m.clock), f, m.clock), o);
    forall id | id in m.state.findings && id != f.id ensures Agrees(id, m.state.findings[id], m.log + [a]) {
      AgreesElsewhere(id, m.state.findings[id], m.log, a);
    }
  }

  lemma ResolveKeepsInformed(cfg: Config, m: Machine, id: Id, o: Outcome)
    requires Informed(m) && Enabled(cfg, m, Resolve(id, o))
    ensures Informed(Apply(cfg, m, Resolve(id, o)))
  {
    ViewAppend(m.log, Attempt(ResolvedMessage(cfg, id, m.state.findings[id], m.clock), o));
  }

  lemma StepKeepsInformed(cfg: Config, m: Machine, step: Step)
    requires Informed(m) && Enabled(cfg, m, step)
    ensures Informed(Apply(cfg, m, step))
  {
    if step.Report? {
      ReportKeepsInformed(cfg, m, step.finding, step.outcome);
    } else if step.Resolve? {
      ResolveKeepsInformed(cfg, m, step.id, step.outcome);
    }
  }

  /** Whatever the publisher does, the consumer and the unmarked entries agree after every step. */
  lemma {:induction false} RunKeepsInformed(cfg: Config, m: Machine, steps: seq<Step>)
    requires Informed(m) && Valid(cfg, m, steps)
    ensures Informed(Run(cfg, m, steps))
  {
    if steps != [] {
      RunKeepsInformed(cfg, m, Init(steps));
      StepKeepsInformed(cfg, Run(cfg, m, Init(steps)), Last(steps));
    }
  }

  // ----- no ongoing belief without an entry -----

  ghost function NonResolved(findings: map<Id, FindingState>): set<Id> {
    findings.Keys - WithStatus(findings, Resolved)
  }

  /** The cap is off, or every step of the run that applies it finds room for all entries that are not resolved. */
  ghost predicate Roomy(cfg: Config, m: Machine, steps: seq<Step>) {
    steps == [] ||
    (Roomy(cfg, m, Init(steps))
     && (Last(steps).CapFindings? && cfg.maxFindings > 0 ==>
           |NonResolved(Run(cfg, m, Init(steps)).state.findings)| <= cfg.maxFindings))
  }

  /** The cap touches an entry that is not resolved exactly when those entries alone exceed it. */
  lemma CapSparesNonResolved(cfg: Config, findings: map<Id, FindingState>, gone: set<Id>)
    requires FindingCap(cfg, findings, gone)
    ensures gone <= WithStatus(findings, Resolved)
            <==> (cfg.maxFindings <= 0 || |NonResolved(findings)| <= cfg.maxFindings)
  {
    var resolved := WithStatus(findings, Resolved);
    assert findings.Keys == resolved + NonResolved(findings);
    assert |findings| == |resolved| + |NonResolved(findings)|;
    if cfg.maxFindings > 0 && |findings| > cfg.maxFindings && |findings| - cfg.maxFindings > |resolved| {
      assert |gone - resolved| > 0;
    }
  }

  ghost function Orphans(m: Machine): set<Id> {
    OngoingIds(m.log) - m.state.findings.Keys
  }

  /** What one step makes of the orphans: the cap adds what it evicts and the consumer believes ongoing, a
      report takes its own id away, and nothing else changes them. */
  ghost function OrphansAfter(orphans: set<Id>, log: seq<Attempt>, step: Step): set<Id> {
    match step
    case Report(f, _) => orphans - {f.id}
    case CapFindings(ids) => orphans + ids * OngoingIds(log)
    case _ => orphans
  }

  lemma ReportedIsNoOrphan(cfg: Config, m: Machine, f: Finding, o: Outcome)
    ensures Orphans(Apply(cfg, m, Report(f, o))) == Orphans(m) - {f.id}
  {
    ViewAppend(m.log, Attempt(Message(cfg, EntryFor(m.state.findings, f, m.clock), f, m.clock), o));
  }

  lemma ResolvedIsNoOrphan(cfg: Config, m: Machine, r: Id, o: Outcome)
    requires r in m.state.findings
    ensures Orphans(Apply(cfg, m, Resolve(r, o))) == Orphans(m)
  {
    ViewAppend(m.log, Attempt(ResolvedMessage(cfg, r, m.state.findings[r], m.clock), o));
  }

  lemma DeletedAreOrphans(m: Machine, gone: set<Id>)
    ensures OngoingIds(m.log) - (m.state.findings - gone).Keys == Orphans(m) + gone * OngoingIds(m.log)
  {
    assert (m.state.findings - gone).Keys == m.state.findings.Keys - gone;
  }

  /** The consumer knows that resolved entries are resolved. */
  lemma ResolvedAreKnown(m: Machine, gone: set<Id>)
    requires Informed(m) && gone <= WithStatus(m.state.findings, Resolved)
    ensures gone * OngoingIds(m.log) == {}
  {
    forall id | id in gone ensures id !in OngoingIds(m.log) {
      assert Agrees(id, m.state.findings[id], m.log);
    }
  }

  lemma StepOrphans(cfg: Config, m: Machine, step: Step)
    requires Informed(m) && Enabled(cfg, m, step)
    ensures Orphans(Apply(cfg, m, step)) == OrphansAfter(Orphans(m), m.log, step)
  {
    match step
    case Report(f, o) => ReportedIsNoOrphan(cfg, m, f, o);
    case Resolve(id, o) => ResolvedIsNoOrphan(cfg, m, id, o);
    case Expire =>
      DeletedAreOrphans(m, Expired(cfg, m.state.findings, m.clock));
      ResolvedAreKnown(m, Expired(cfg, m.state.findings, m.clock));
    case CapFindings(ids) => DeletedAreOrphans(m, ids);
    case ShrinkFinding(id) =>
      DeletedAreOrphans(m, {id});
      ResolvedAreKnown(m, {id});
    case _ =>
  }

  /** The orphans over a whole run, by what each step adds and takes away. */
  ghost function OrphansOver(cfg: Config, m: Machine, steps: seq<Step>): set<Id> {
    if steps == [] then Orphans(m)
    else OrphansAfter(OrphansOver(cfg, m, Init(steps)), Run(cfg, m, Init(steps)).log, Last(steps))
  }

  /** An id is an orphan exactly if the cap evicted it while the consumer believed it ongoing and no report
      has carried it since. */
  lemma {:induction false} RunOrphans(cfg: Config, m: Machine, steps: seq<Step>)
    requires Informed(m) && Valid(cfg, m, steps)
    ensures Orphans(Run(cfg, m, steps)) == OrphansOver(cfg, m, steps)
  {
    if steps != [] {
      RunKeepsInformed(cfg, m, Init(steps));
      RunOrphans(cfg, m, Init(steps));
      StepOrphans(cfg, Run(cfg, m, Init(steps)), Last(steps));
    }
  }

  lemma StepMakesNoOrphan(cfg: Config, m: Machine, step: Step)
    requires Informed(m) && Orphans(m) == {} && Enabled(cfg, m, step)
    requires step.CapFindings? && cfg.maxFindings > 0 ==> |NonResolved(m.state.findings)| <= cfg.maxFindings
    ensures Orphans(Apply(cfg, m, step)) == {}
  {
    StepOrphans(cfg, m, step);
    if step.CapFindings? {
      CapSparesNonResolved(cfg, m.state.findings, step.ids);
      ResolvedAreKnown(m, step.ids);
    }
  }

  /** As long as the cap has room, every id the consumer holds ongoing has an entry that can still resolve it. */
  lemma {:induction false} RunMakesNoOrphan(cfg: Config, m: Machine, steps: seq<Step>)
    requires Informed(m) && Orphans(m) == {} && Valid(cfg, m, steps) && Roomy(cfg, m, steps)
    ensures Orphans(Run(cfg, m, steps)) == {}
  {
    if steps != [] {
      RunKeepsInformed(cfg, m, Init(steps));
      RunMakesNoOrphan(cfg, m, Init(steps));
      StepMakesNoOrphan(cfg, Run(cfg, m, Init(steps)), Last(steps));
    }
  }
}
