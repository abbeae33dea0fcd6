/** What the messages say and what the entries remember, over whole runs and told by the configuration and the
    steps alone. */
module Messages {
  import opened Base
  import opened Findings
  import opened States
  import opened Protocol
  import opened Lifecycle
  import opened Triage
  import opened Cooldown
  import opened Suppression

  // ----- one report -----

  /** The entry's cooldown has not run out. */
  predicate Cooling(k: Machine, id: Id) {
    && id in k.state.findings && k.state.findings[id].cooldownUntil.Some?
    && k.clock <= k.state.findings[id].cooldownUntil.value
  }

  predicate Qualifies(cfg: Config, f: Finding) {
    cfg.triageEnabled && f.score >= cfg.minScore
  }

  /** A report is published if the finding is new or was resolved, if it was never published or the last publish
      failed, if it got worse or changed its class, or if it is due for triage. */
  predicate Publishes(cfg: Config, k: Machine, f: Finding) {
    || f.id !in k.state.findings
    || k.state.findings[f.id].status == Resolved
    || k.state.findings[f.id].lastPublished == None
    || k.state.findings[f.id].lastPublishFailed != None
    || k.state.findings[f.id].score < f.score
    || k.state.findings[f.id].classification != f.classification
    || (Qualifies(cfg, f) && !Cooling(k, f.id))
  }

  /** The message is the finding with its status and instants, and with the triage request that is due: an
      incident-likely one carries the incident cooldown if there is one, every other the plain cooldown. */
  ghost predicate TellsReport(cfg: Config, k: Machine, f: Finding, msg: Finding) {
    && msg.id == f.id && msg.namespace == f.namespace && msg.kind == f.kind && msg.name == f.name
    && msg.severity == f.severity && msg.classification == f.classification && msg.score == f.score
    && msg.check == f.check && msg.reason == f.reason
    && msg.evidence == f.evidence && msg.prediction == f.prediction && msg.matchingEvent == f.matchingEvent
    && msg.status == Ongoing && msg.lastSeen == k.clock
    && msg.firstSeen == (if f.id in k.state.findings then k.state.findings[f.id].firstSeen else k.clock)
    && (msg.aiTriageRequired <==> Qualifies(cfg, f) && !Cooling(k, f.id))
    && (msg.aiTriageRequired && f.classification == IncidentLikely && cfg.cooldownIncident > 0 ==>
          msg.cooldownUntil == Some(k.clock + cfg.cooldownIncident))
    && (msg.aiTriageRequired && (f.classification != IncidentLikely || cfg.cooldownIncident <= 0) ==>
          msg.cooldownUntil == Some(k.clock + cfg.cooldown))
    && (!msg.aiTriageRequired && Qualifies(cfg, f) ==> msg.cooldownUntil == k.state.findings[f.id].cooldownUntil)
    && (!Qualifies(cfg, f) ==> msg.cooldownUntil == None)
  }

  /** What the entry holds after a report: the finding's present; that the publish was acknowledged, or that it
      failed; and, when it was an acknowledged request, when that was and until when it cools. */
  ghost predicate HoldsReport(cfg: Config, k: Machine, f: Finding, o: Outcome, e: FindingState) {
    var known := f.id in k.state.findings;
    && e.kind == f.kind && e.name == f.name && e.check == f.check && e.reason == f.reason
    && e.score == f.score && e.classification == f.classification && e.status == Ongoing && e.lastSeen == k.clock
    && e.firstSeen == (if known then k.state.findings[f.id].firstSeen else k.clock)
    && (if Publishes(cfg, k, f) && o == Acked then e.lastPublished == Some(k.clock) && e.lastPublishFailed == None
        else
          && e.lastPublished == (if known then k.state.findings[f.id].lastPublished else None)
          && e.lastPublishFailed == if Publishes(cfg, k, f) then Some(k.clock) else None)
    && (if Qualifies(cfg, f) && !Cooling(k, f.id) && o == Acked then
          && e.lastAIDispatch == Some(k.clock)
          && (f.classification == IncidentLikely && cfg.cooldownIncident > 0 ==>
                e.cooldownUntil == Some(k.clock + cfg.cooldownIncident))
          && (f.classification != IncidentLikely || cfg.cooldownIncident <= 0 ==>
                e.cooldownUntil == Some(k.clock + cfg.cooldown))
        else
          && e.lastAIDispatch == (if known then k.state.findings[f.id].lastAIDispatch else None)
          && e.cooldownUntil == if known then k.state.findings[f.id].cooldownUntil else None)
  }

  lemma ReportMeans(cfg: Config, k: Machine, f: Finding, o: Outcome)
    requires WellMade(cfg.namespace, f)
    ensures var n := Apply(cfg, k, Report(f, o));
      && (if Publishes(cfg, k, f)
          then |n.log| == |k.log| + 1 && n.log[..|k.log|] == k.log
               && TellsReport(cfg, k, f, n.log[|k.log|].message) && n.log[|k.log|].outcome == o
          else n.log == k.log)
      && f.id in n.state.findings && HoldsReport(cfg, k, f, o, n.state.findings[f.id])
  {
    assert Publishes(cfg, k, f) <==> MustPublish(cfg, k.state.findings, f, k.clock);
    ReportTells(cfg, k, f);
    ReportHolds(cfg, k, f, o);
  }

  lemma ReportTells(cfg: Config, k: Machine, f: Finding)
    requires WellMade(cfg.namespace, f)
    ensures TellsReport(cfg, k, f, Message(cfg, EntryFor(k.state.findings, f, k.clock), f, k.clock))
  {
  }

  lemma ReportHolds(cfg: Config, k: Machine, f: Finding, o: Outcome)
    requires WellMade(cfg.namespace, f)
    ensures HoldsReport(cfg, k, f, o, ReportedEntry(cfg, k.state.findings, f, k.clock, o))
  {
  }

  // ----- one resolution -----

  /** The message says low, healthy and nothing more, about the entry that it resolves. */
  ghost predicate TellsResolution(cfg: Config, k: Machine, id: Id, msg: Finding)
    requires id in k.state.findings
  {
    var e := k.state.findings[id];
    && msg.id == id && msg.namespace == cfg.namespace && msg.status == Resolved && msg.lastSeen == k.clock
    && msg.kind == e.kind && msg.name == e.name && msg.check == e.check && msg.reason == e.reason
    && msg.firstSeen == e.firstSeen
    && msg.severity == Low && msg.classification == Healthy && msg.score == 0
    && msg.evidence == ["deterministic check no longer reports this finding"] && msg.prediction == ""
    && !msg.matchingEvent && !msg.aiTriageRequired && msg.cooldownUntil == None
  }

  /** An acknowledged resolution makes the entry resolved, healthy and of this instant; a failed one marks it. */
  ghost predicate HoldsResolution(k: Machine, id: Id, o: Outcome, e: FindingState)
    requires id in k.state.findings
  {
    var before := k.state.findings[id];
    && e.kind == before.kind && e.name == before.name && e.check == before.check && e.reason == before.reason
    && e.firstSeen == before.firstSeen
    && e.lastAIDispatch == before.lastAIDispatch && e.cooldownUntil == before.cooldownUntil
    && (if o == Acked then
          && e.status == Resolved && e.score == 0 && e.classification == Healthy && e.lastSeen == k.clock
          && e.lastPublished == Some(k.clock) && e.lastPublishFailed == None
        else
          && e.status == before.status && e.score == before.score && e.classification == before.classification
          && e.lastSeen == before.lastSeen
          && e.lastPublished == before.lastPublished && e.lastPublishFailed == Some(k.clock))
  }

  lemma ResolutionMeans(cfg: Config, k: Machine, id: Id, o: Outcome)
    requires id in k.state.findings
    ensures var n := Apply(cfg, k, Resolve(id, o));
      && |n.log| == |k.log| + 1 && n.log[..|k.log|] == k.log
      && TellsResolution(cfg, k, id, n.log[|k.log|].message) && n.log[|k.log|].outcome == o
      && id in n.state.findings && HoldsResolution(k, id, o, n.state.findings[id])
  {
  }

  // ----- every message of a run -----

  /** Step s of the run sent this message. */
  ghost predicate SentBy(cfg: Config, m: Machine, steps: seq<Step>, s: int, a: Attempt) {
    0 <= s < |steps|
    && var k := Run(cfg, m, steps[..s]);
       match steps[s]
       case Report(f, o) =>
         WellMade(cfg.namespace, f) && Publishes(cfg, k, f) && a.outcome == o && TellsReport(cfg, k, f, a.message)
       case Resolve(id, o) =>
         && id in k.state.findings && k.state.findings[id].status == Ongoing && id !in k.active && k.complete
         && a.outcome == o && TellsResolution(cfg, k, id, a.message)
       case _ => false
  }

  lemma SentStays(cfg: Config, m: Machine, steps: seq<Step>, s: int, a: Attempt)
    requires steps != [] && SentBy(cfg, m, Init(steps), s, a)
    ensures SentBy(cfg, m, steps, s, a)
  {
    PrefixOfInit(steps, s);
  }

  /** The last step of a run sends at most one message, and it is the right one. */
  lemma LastSends(cfg: Config, m: Machine, steps: seq<Step>)
    requires steps != [] && Valid(cfg, m, steps)
    ensures var k, n := Run(cfg, m, Init(steps)), Run(cfg, m, steps);
      || n.log == k.log
      || (|n.log| == |k.log| + 1 && n.log[..|k.log|] == k.log && SentBy(cfg, m, steps, |steps| - 1, n.log[|k.log|]))
  {
    hide Publishes, TellsReport, HoldsReport, TellsResolution, HoldsResolution;
    var k, step := Run(cfg, m, Init(steps)), Last(steps);
    PrefixOfInit(steps, |steps| - 1);
    if step.Report? {
      ReportMeans(cfg, k, step.finding, step.outcome);
    } else if step.Resolve? {
      ResolutionMeans(cfg, k, step.id, step.outcome);
    }
  }

  /** Every message of every run was sent by a step that had to send it, and says what it should. */
  lemma {:induction false} EveryMessageIsRight(cfg: Config, m: Machine, steps: seq<Step>, i: nat) returns (s: int)
    requires Valid(cfg, m, steps) && |m.log| <= i < |Run(cfg, m, steps).log|
    ensures SentBy(cfg, m, steps, s, Run(cfg, m, steps).log[i])
  {
    var k, n := Run(cfg, m, Init(steps)), Run(cfg, m, steps);
    hide SentBy, Apply, Enabled;
    LastSends(cfg, m, steps);
    if i < |k.log| {
      assert n.log[i] == k.log[i];
      s := EveryMessageIsRight(cfg, m, Init(steps), i);
      SentStays(cfg, m, steps, s, n.log[i]);
    } else {
      s := |steps| - 1;
    }
  }

  /** In every log a resolved message is low, healthy, of score 0 and asks for nothing; it describes the ongoing
      entry that the poll had not reported. */
  lemma ResolvedMessagesAreHealthy(cfg: Config, steps: seq<Step>, i: nat) returns (s: nat)
    requires Valid(cfg, FreshStart(cfg), steps) && i < |Run(cfg, FreshStart(cfg), steps).log|
    requires Run(cfg, FreshStart(cfg), steps).log[i].message.status == Resolved
    ensures var msg := Run(cfg, FreshStart(cfg), steps).log[i].message;
      && msg.severity == Low && msg.classification == Healthy && msg.score == 0 && msg.prediction == ""
      && !msg.aiTriageRequired && msg.cooldownUntil == None && msg.namespace == cfg.namespace
      && s < |steps| && steps[s].Resolve? && steps[s].id == msg.id
      && var k := Run(cfg, FreshStart(cfg), steps[..s]);
         && msg.id in k.state.findings && k.state.findings[msg.id].status == Ongoing && msg.id !in k.active
         && msg.lastSeen == k.clock
         && var e := k.state.findings[msg.id];
            && msg.kind == e.kind && msg.name == e.name && msg.check == e.check && msg.reason == e.reason
            && msg.firstSeen == e.firstSeen
  {
    s := EveryMessageIsRight(cfg, FreshStart(cfg), steps, i);
  }

  /** In every log an ongoing message has the class and the severity of its score and is a finding reported at
      that instant. */
  lemma OngoingMessagesAreBanded(cfg: Config, steps: seq<Step>, i: nat) returns (s: nat)
    requires Valid(cfg, FreshStart(cfg), steps) && i < |Run(cfg, FreshStart(cfg), steps).log|
    requires Run(cfg, FreshStart(cfg), steps).log[i].message.status == Ongoing
    ensures var msg := Run(cfg, FreshStart(cfg), steps).log[i].message;
      && msg.severity == SeverityForScore(msg.score) && msg.classification == ClassificationForScore(msg.score)
      && 0 <= msg.score <= 100
      && s < |steps| && steps[s].Report? && steps[s].finding.id == msg.id && steps[s].finding.evidence == msg.evidence
      && msg.lastSeen == Run(cfg, FreshStart(cfg), steps[..s]).clock
  {
    s := EveryMessageIsRight(cfg, FreshStart(cfg), steps, i);
  }

  lemma {:induction false} FoundInPrompts(suppressions: set<string>, findings: seq<Finding>, f: Finding)
    returns (j: nat)
    requires Report(f, Acked) in Prompts(suppressions, findings)
    ensures j < |findings| && findings[j] == f && !IsSuppressed(suppressions, f)
  {
    if Last(findings) == f && !IsSuppressed(suppressions, f) {
      j := |findings| - 1;
    } else {
      j := FoundInPrompts(suppressions, Init(findings), f);
    }
  }

  lemma {:induction false} FoundInScript(suppressions: set<string>, results: seq<CheckResult>, f: Finding)
    returns (r: nat, j: nat)
    requires Report(f, Acked) in Script(suppressions, results)
    ensures r < |results| && j < |results[r].findings| && results[r].findings[j] == f && !IsSuppressed(suppressions, f)
  {
    if Report(f, Acked) in Prompts(suppressions, Last(results).findings) {
      r := |results| - 1;
      j := FoundInPrompts(suppressions, Last(results).findings, f);
    } else {
      r, j := FoundInScript(suppressions, Init(results), f);
    }
  }

  lemma ReportIsScripted(p: Poll, s: nat)
    requires EraseAll(p.reports) == Script(p.suppressions, p.results) && AllResolve(p.resolves)
    requires forall i :: 0 <= i < |p.saving| ==> Saving(p.saving[i])
    requires s < |Steps(p)| && Steps(p)[s].Report?
    ensures Report(Steps(p)[s].finding, Acked) in Script(p.suppressions, p.results)
  {
    assert s > 0 && s - 1 < |p.reports| && Steps(p)[s] == p.reports[s - 1];
    assert EraseAll(p.reports)[s - 1] == Report(Steps(p)[s].finding, Acked);
  }

  predicate AllResolve(steps: seq<Step>) {
    forall i :: 0 <= i < |steps| ==> steps[i].Resolve?
  }

  /** Every ongoing message of a poll is about a finding of one of its results that is not suppressed. */
  lemma PollTellsOnlyFindings(cfg: Config, m: Machine, p: Poll, i: nat) returns (r: nat, j: nat)
    requires IsPoll(cfg, m, p) && |m.log| <= i < |Run(cfg, m, Steps(p)).log|
    requires Run(cfg, m, Steps(p)).log[i].message.status == Ongoing
    ensures var msg := Run(cfg, m, Steps(p)).log[i].message;
      && r < |p.results| && j < |p.results[r].findings| && msg.id == p.results[r].findings[j].id
      && msg.score == p.results[r].findings[j].score && msg.evidence == p.results[r].findings[j].evidence
      && !IsSuppressed(p.suppressions, p.results[r].findings[j])
  {
    var s := EveryMessageIsRight(cfg, m, Steps(p), i);
    hide Run, Valid, Enabled, Publishes;
    ReportIsScripted(p, s);
    r, j := FoundInScript(p.suppressions, p.results, Steps(p)[s].finding);
  }

  /** In every log a message that asks for triage carries the end of its own cooldown: the incident cooldown for
      an incident-likely finding if there is one, the plain cooldown for every other. */
  lemma RequestsCarryTheirCooldown(cfg: Config, steps: seq<Step>, i: nat)
    requires Valid(cfg, FreshStart(cfg), steps) && i < |Run(cfg, FreshStart(cfg), steps).log|
    requires Run(cfg, FreshStart(cfg), steps).log[i].message.aiTriageRequired
    ensures var msg := Run(cfg, FreshStart(cfg), steps).log[i].message;
      && cfg.triageEnabled && msg.score >= cfg.minScore
      && (msg.classification == IncidentLikely && cfg.cooldownIncident > 0 ==>
            msg.cooldownUntil == Some(msg.lastSeen + cfg.cooldownIncident))
      && (msg.classification != IncidentLikely || cfg.cooldownIncident <= 0 ==>
            msg.cooldownUntil == Some(msg.lastSeen + cfg.cooldown))
  {
    hide Run, Valid, Apply, Enabled, WellMade, Publishes, Cooling;
    var s := EveryMessageIsRight(cfg, FreshStart(cfg), steps, i);
  }

  /** Two acknowledged requests for one id are more than the cooldown of the first one's class apart. */
  lemma SpacingPerClass(cfg: Config, steps: seq<Step>, id: Id, i: nat, j: nat)
    requires Valid(cfg, FreshStart(cfg), steps) && ClockForward(cfg, FreshStart(cfg), steps)
    requires Spaced(Run(cfg, FreshStart(cfg), steps).log, id)
    requires i < j < |Run(cfg, FreshStart(cfg), steps).log|
    requires Requests(Run(cfg, FreshStart(cfg), steps).log[i], id)
    requires Requests(Run(cfg, FreshStart(cfg), steps).log[j], id)
    ensures var log := Run(cfg, FreshStart(cfg), steps).log;
      var first, second := log[i].message, log[j].message;
      && (first.classification == IncidentLikely && cfg.cooldownIncident > 0 ==>
            second.lastSeen - first.lastSeen > cfg.cooldownIncident)
      && (first.classification != IncidentLikely || cfg.cooldownIncident <= 0 ==>
            second.lastSeen - first.lastSeen > cfg.cooldown)
  {
    RequestsCarryTheirCooldown(cfg, steps, i);
  }

  /** Once that instant has passed, an acknowledged qualifying report is a request again; until then it is none. */
  lemma RequestAgainExactly(cfg: Config, k: Machine, f: Finding)
    requires WellMade(cfg.namespace, f) && cfg.triageEnabled && f.score >= cfg.minScore
    requires f.id in k.state.findings && k.state.findings[f.id].cooldownUntil.Some?
    ensures var n := Apply(cfg, k, Report(f, Acked));
      k.clock > k.state.findings[f.id].cooldownUntil.value <==>
        |n.log| == |k.log| + 1 && Requests(n.log[|k.log|], f.id)
  {
    ReportMeans(cfg, k, f, Acked);
  }

  // ----- every entry of a run -----

  predicate Names(step: Step, id: Id) {
    (step.Report? && step.finding.id == id) || (step.Resolve? && step.id == id)
  }

  /** Step s is the last that names the id, and it left the entry as it is. */
  ghost predicate LeftBy(cfg: Config, m: Machine, steps: seq<Step>, s: int, id: Id, e: FindingState) {
    && 0 <= s < |steps| && (forall t :: s < t < |steps| ==> !Names(steps[t], id))
    && var k := Run(cfg, m, steps[..s]);
       match steps[s]
       case Report(f, o) => f.id == id && WellMade(cfg.namespace, f) && HoldsReport(cfg, k, f, o, e)
       case Resolve(r, o) =>
         && r == id && id in k.state.findings && k.state.findings[id].status == Ongoing
         && HoldsResolution(k, id, o, e)
       case _ => false
  }

  lemma LeftStays(cfg: Config, m: Machine, steps: seq<Step>, s: int, id: Id, e: FindingState)
    requires steps != [] && LeftBy(cfg, m, Init(steps), s, id, e) && !Names(Last(steps), id)
    ensures LeftBy(cfg, m, steps, s, id, e)
  {
    PrefixOfInit(steps, s);
    assert forall t :: 0 <= t < |steps| - 1 ==> Init(steps)[t] == steps[t];
  }

  lemma LastLeaves(cfg: Config, m: Machine, steps: seq<Step>, id: Id)
    requires steps != [] && Valid(cfg, m, steps) && id in Run(cfg, m, steps).state.findings
    ensures var k, n := Run(cfg, m, Init(steps)), Run(cfg, m, steps);
      if Names(Last(steps), id) then LeftBy(cfg, m, steps, |steps| - 1, id, n.state.findings[id])
      else id in k.state.findings && k.state.findings[id] == n.state.findings[id]
  {
    var k, step := Run(cfg, m, Init(steps)), Last(steps);
    PrefixOfInit(steps, |steps| - 1);
    if Names(step, id) {
      if step.Report? {
        ReportMeans(cfg, k, step.finding, step.outcome);
      } else {
        ResolutionMeans(cfg, k, step.id, step.outcome);
      }
    } else if step.Report? {
      OtherReportLeaves(cfg, k, step.finding, step.outcome, id);
    }
  }

  lemma OtherReportLeaves(cfg: Config, k: Machine, f: Finding, o: Outcome, id: Id)
    requires f.id != id
    ensures var n := Apply(cfg, k, Report(f, o));
      && (id in n.state.findings <==> id in k.state.findings)
      && (id in k.state.findings ==> n.state.findings[id] == k.state.findings[id])
  {
    hide MustPublish, Triages, CooldownFor, ReportedEntry;
  }

  /** Every entry of every run is what the last report or resolution of its id left. */
  lemma {:induction false} EveryEntryIsRight(cfg: Config, steps: seq<Step>, id: Id) returns (s: int)
    requires Valid(cfg, FreshStart(cfg), steps) && id in Run(cfg, FreshStart(cfg), steps).state.findings
    ensures LeftBy(cfg, FreshStart(cfg), steps, s, id, Run(cfg, FreshStart(cfg), steps).state.findings[id])
  {
    hide LeftBy, Apply, Enabled;
    var start := FreshStart(cfg);
    LastLeaves(cfg, start, steps, id);
    if Names(Last(steps), id) {
      s := |steps| - 1;
    } else {
      s := EveryEntryIsRight(cfg, Init(steps), id);
      LeftStays(cfg, start, steps, s, id, Run(cfg, start, steps).state.findings[id]);
    }
  }

  /** A resolved entry is healthy, of score 0 and of the instant of its acknowledged resolution, and no step has
      named the id since. */
  lemma ResolvedEntriesAreHealthy(cfg: Config, steps: seq<Step>, id: Id) returns (s: nat)
    requires Valid(cfg, FreshStart(cfg), steps) && id in Run(cfg, FreshStart(cfg), steps).state.findings
    requires Run(cfg, FreshStart(cfg), steps).state.findings[id].status == Resolved
    ensures var e := Run(cfg, FreshStart(cfg), steps).state.findings[id];
      && e.classification == Healthy && e.score == 0
      && s < |steps| && steps[s] == Resolve(id, Acked) && (forall t :: s < t < |steps| ==> !Names(steps[t], id))
      && e.lastSeen == Run(cfg, FreshStart(cfg), steps[..s]).clock
      && e.lastPublished == Some(e.lastSeen) && e.lastPublishFailed == None
  {
    s := EveryEntryIsRight(cfg, steps, id);
  }
}
