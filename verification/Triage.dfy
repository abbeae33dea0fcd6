/** How often one finding asks the downstream consumer for triage. */
module Triage {
  import opened Base
  import opened Findings
  import opened Protocol
  import opened Lifecycle

  /** An acknowledged publish that asks for triage. */
  predicate Requests(a: Attempt, id: Id) {
    a.message.id == id && a.message.aiTriageRequired && a.outcome == Acked
  }

  /** The request carries the end of its own cooldown. */
  predicate CarriesCooldown(cfg: Config, a: Attempt) {
    a.message.cooldownUntil == Some(a.message.lastSeen + CooldownFor(cfg, a.message.classification))
  }

  /** The cooldown of an earlier request is over, or the entry still remembers it. */
  ghost predicate Remembered(m: Machine, a: Attempt, id: Id)
    requires a.message.cooldownUntil.Some?
  {
    || m.clock > a.message.cooldownUntil.value
    || (&& id in m.state.findings
        && m.state.findings[id].cooldownUntil.Some?
        && m.state.findings[id].cooldownUntil.value >= a.message.cooldownUntil.value
        && m.state.findings[id].lastSeen >= a.message.lastSeen)
  }

  /** Every request comes after the cooldown of every earlier one. */
  ghost predicate Spaced(log: seq<Attempt>, id: Id) {
    forall i, j ::
      (0 <= i < j < |log| && Requests(log[i], id) && Requests(log[j], id) && log[i].message.cooldownUntil.Some?)
      ==> log[j].message.lastSeen > log[i].message.cooldownUntil.value
  }

  ghost predicate Cooled(cfg: Config, m: Machine, id: Id) {
    && Spaced(m.log, id)
    && forall i :: 0 <= i < |m.log| && Requests(m.log[i], id) ==>
         CarriesCooldown(cfg, m.log[i]) && Remembered(m, m.log[i], id)
  }

  /** Resolved entries are kept at least as long as any cooldown lasts. */
  predicate LongRetention(cfg: Config) {
    cfg.resolvedRetention > 0 ==>
      cfg.resolvedRetention >= cfg.cooldown
        && (cfg.cooldownIncident > 0 ==> cfg.resolvedRetention >= cfg.cooldownIncident)
  }

  /** No cap and no size step of the run evicts the entry inside its cooldown. */
  ghost predicate SparesCooldown(cfg: Config, m: Machine, steps: seq<Step>, id: Id) {
    steps == [] ||
    (SparesCooldown(cfg, m, Init(steps), id)
     && var k := Run(cfg, m, Init(steps));
        Evicts(Last(steps), id) && id in k.state.findings ==> CooldownOver(k.state.findings[id], k.clock))
  }

  predicate Evicts(step: Step, id: Id) {
    (step.CapFindings? && id in step.ids) || step == ShrinkFinding(id)
  }

  lemma ReportKeepsCooled(cfg: Config, m: Machine, f: Finding, o: Outcome, id: Id)
    requires Cooled(cfg, m, id) && Timely(m) && WellMade(cfg.namespace, f)
    ensures Cooled(cfg, Apply(cfg, m, Report(f, o)), id)
  {
    var n := Apply(cfg, m, Report(f, o));
    forall i | 0 <= i < |n.log| && Requests(n.log[i], id)
      ensures CarriesCooldown(cfg, n.log[i]) && Remembered(n, n.log[i], id)
    {
      if i < |m.log| {
        assert n.log[i] == m.log[i] && Remembered(m, m.log[i], id);
      }
    }
    forall i, j | 0 <= i < j < |n.log| && Requests(n.log[i], id) && Requests(n.log[j], id)
      ensures n.log[i].message.cooldownUntil.Some? ==> n.log[j].message.lastSeen > n.log[i].message.cooldownUntil.value
    {
      assert n.log[i] == m.log[i];
      if j == |m.log| {
        assert Remembered(m, m.log[i], id);
      } else {
        assert n.log[j] == m.log[j];
      }
    }
  }

  /** Deleting entries whose cooldown is over, or that were resolved long ago, forgets no running cooldown. */
  lemma DeletionKeepsCooled(cfg: Config, m: Machine, n: Machine, id: Id)
    requires Cooled(cfg, m, id) && n.log == m.log && n.clock == m.clock
    requires id in m.state.findings && id !in n.state.findings
    requires CooldownOver(m.state.findings[id], m.clock)
             || (LongRetention(cfg) && IsExpired(cfg, m.state.findings[id], m.clock))
    ensures Cooled(cfg, n, id)
  {
    forall i | 0 <= i < |n.log| && Requests(n.log[i], id)
      ensures CarriesCooldown(cfg, n.log[i]) && Remembered(n, n.log[i], id)
    {
      assert CarriesCooldown(cfg, m.log[i]) && Remembered(m, m.log[i], id);
    }
  }

  /** With the entry untouched and the clock not behind, every cooldown stays remembered. */
  lemma FrameKeepsCooled(cfg: Config, m: Machine, n: Machine, id: Id)
    requires Cooled(cfg, m, id) && n.log == m.log && m.clock <= n.clock
    requires id in m.state.findings ==> id in n.state.findings && n.state.findings[id] == m.state.findings[id]
    ensures Cooled(cfg, n, id)
  {
    forall i | 0 <= i < |n.log| && Requests(n.log[i], id)
      ensures CarriesCooldown(cfg, n.log[i]) && Remembered(n, n.log[i], id)
    {
      assert CarriesCooldown(cfg, m.log[i]) && Remembered(m, m.log[i], id);
    }
  }

  lemma ResolveKeepsCooled(cfg: Config, m: Machine, r: Id, o: Outcome, id: Id)
    requires Cooled(cfg, m, id) && Timely(m) && r in m.state.findings
    ensures Cooled(cfg, Apply(cfg, m, Resolve(r, o)), id)
  {
    var n := Apply(cfg, m, Resolve(r, o));
    assert !Requests(n.log[|m.log|], id);
    forall i | 0 <= i < |n.log| && Requests(n.log[i], id)
      ensures CarriesCooldown(cfg, n.log[i]) && Remembered(n, n.log[i], id)
    {
      assert i < |m.log| && n.log[i] == m.log[i];
      assert CarriesCooldown(cfg, m.log[i]) && Remembered(m, m.log[i], id);
    }
  }

  lemma StepKeepsCooled(cfg: Config, m: Machine, step: Step, id: Id)
    requires Cooled(cfg, m, id) && Timely(m) && Enabled(cfg, m, step)
    requires step.Begin? ==> m.clock <= step.now
    requires LongRetention(cfg)
    requires Evicts(step, id) && id in m.state.findings ==> CooldownOver(m.state.findings[id], m.clock)
    ensures Cooled(cfg, Apply(cfg, m, step), id)
  {
    var n := Apply(cfg, m, step);
    if step.Report? {
      ReportKeepsCooled(cfg, m, step.finding, step.outcome, id);
    } else if step.Resolve? {
      ResolveKeepsCooled(cfg, m, step.id, step.outcome, id);
    } else if id in m.state.findings && id !in n.state.findings {
      DeletionKeepsCooled(cfg, m, n, id);
    } else {
      FrameKeepsCooled(cfg, m, n, id);
    }
  }

  lemma {:induction false} RunKeepsCooled(cfg: Config, m: Machine, steps: seq<Step>, id: Id)
    requires Cooled(cfg, m, id) && Timely(m) && Valid(cfg, m, steps)
    requires ClockForward(cfg, m, steps) && LongRetention(cfg) && SparesCooldown(cfg, m, steps, id)
    ensures Cooled(cfg, Run(cfg, m, steps), id)
  {
    if steps != [] {
      RunKeepsCooled(cfg, m, Init(steps), id);
      RunKeepsTimely(cfg, m, Init(steps));
      StepKeepsCooled(cfg, Run(cfg, m, Init(steps)), Last(steps), id);
    }
  }

  /** Two acknowledged requests for one id are more than the first one's cooldown apart, across resolution,
      reappearance, duplicates in one poll and retention, unless cap or size evicts the entry inside a cooldown. */
  lemma CooldownOverRuns(cfg: Config, steps: seq<Step>, id: Id, i: nat, j: nat)
    requires Valid(cfg, FreshStart(cfg), steps) && ClockForward(cfg, FreshStart(cfg), steps)
    requires LongRetention(cfg) && SparesCooldown(cfg, FreshStart(cfg), steps, id)
    requires i < j < |Run(cfg, FreshStart(cfg), steps).log|
    requires Requests(Run(cfg, FreshStart(cfg), steps).log[i], id)
      && Requests(Run(cfg, FreshStart(cfg), steps).log[j], id)
    ensures var first, second := Run(cfg, FreshStart(cfg), steps).log[i].message,
      Run(cfg, FreshStart(cfg), steps).log[j].message;
      second.lastSeen - first.lastSeen > CooldownFor(cfg, first.classification)
  {
    RunKeepsCooled(cfg, FreshStart(cfg), steps, id);
    assert CarriesCooldown(cfg, Run(cfg, FreshStart(cfg), steps).log[i]);
  }

  // ----- the rate -----

  function Smaller(cfg: Config): int {
    if 0 < cfg.cooldownIncident < cfg.cooldown then cfg.cooldownIncident else cfg.cooldown
  }

  predicate Counted(a: Attempt, id: Id, from: Time, to: Time) {
    Requests(a, id) && from <= a.message.lastSeen <= to
  }

  /** The acknowledged requests for the id in this span of time. */
  function RequestCount(log: seq<Attempt>, id: Id, from: Time, to: Time): nat {
    if log == [] then 0
    else RequestCount(Init(log), id, from, to) + (if Counted(Last(log), id, from, to) then 1 else 0)
  }

  lemma OneMore(n: int, c: int)
    ensures n * c == (n - 1) * c + c
  {
  }

  lemma {:induction false} SpacedIsSparse(cfg: Config, log: seq<Attempt>, id: Id, from: Time, to: Time)
    returns (last: nat)
    requires Smaller(cfg) > 0 && Spaced(log, id)
    requires forall i :: 0 <= i < |log| && Requests(log[i], id) ==> CarriesCooldown(cfg, log[i])
    ensures RequestCount(log, id, from, to) > 0 ==>
      && last < |log| && Counted(log[last], id, from, to)
      && (RequestCount(log, id, from, to) - 1) * Smaller(cfg) <= log[last].message.lastSeen - from
  {
    last := 0;
    if log != [] {
      var init, a := Init(log), Last(log);
      var before := SpacedIsSparse(cfg, init, id, from, to);
      last := if Counted(a, id, from, to) then |log| - 1 else before;
      if Counted(a, id, from, to) && RequestCount(init, id, from, to) > 0 {
        assert log[before] == init[before];
        assert a.message.lastSeen > log[before].message.lastSeen + Smaller(cfg);
        OneMore(RequestCount(init, id, from, to), Smaller(cfg));
      }
    }
  }

  lemma ProductMonotone(a: int, b: int, c: int)
    requires a <= b && c > 0
    ensures a * c <= b * c
  {
  }

  lemma CountFromProduct(n: int, c: int, w: int)
    requires c > 0 && w >= 0 && (n - 1) * c <= w
    ensures n <= 1 + w / c
  {
    var q := w / c;
    assert w < (q + 1) * c;
    if q + 1 <= n - 1 {
      ProductMonotone(q + 1, n - 1, c);
      assert false;
    }
  }

  lemma SpacedRate(cfg: Config, log: seq<Attempt>, id: Id, from: Time, to: Time)
    requires Smaller(cfg) > 0 && Spaced(log, id) && from <= to
    requires forall i :: 0 <= i < |log| && Requests(log[i], id) ==> CarriesCooldown(cfg, log[i])
    ensures RequestCount(log, id, from, to) <= 1 + (to - from) / Smaller(cfg)
  {
    var last := SpacedIsSparse(cfg, log, id, from, to);
    var n, c := RequestCount(log, id, from, to), Smaller(cfg);
    if n > 0 {
      CountFromProduct(n, c, to - from);
    } else {
      CountFromProduct(0, c, to - from);
    }
  }

  /** In any span of length W, at most 1 + W / C acknowledged requests for one id, C the smaller cooldown. */
  lemma TriageRate(cfg: Config, steps: seq<Step>, id: Id, from: Time, to: Time)
    requires Valid(cfg, FreshStart(cfg), steps) && ClockForward(cfg, FreshStart(cfg), steps)
    requires LongRetention(cfg) && SparesCooldown(cfg, FreshStart(cfg), steps, id)
    requires Smaller(cfg) > 0 && from <= to
    ensures RequestCount(Run(cfg, FreshStart(cfg), steps).log, id, from, to) <= 1 + (to - from) / Smaller(cfg)
  {
    RunKeepsCooled(cfg, FreshStart(cfg), steps, id);
    SpacedRate(cfg, Run(cfg, FreshStart(cfg), steps).log, id, from, to);
  }

  // ----- a steady finding below the threshold -----

  /** The run reports the id only like this, always acknowledged, and neither resolves nor deletes its entry. */
  ghost predicate SteadyRun(cfg: Config, m: Machine, steps: seq<Step>, id: Id, score: int) {
    steps == [] ||
    (&& SteadyRun(cfg, m, Init(steps), id, score)
     && SteadyStep(Last(steps), id, score)
     && (id in Run(cfg, m, Init(steps)).state.findings ==> id in Run(cfg, m, steps).state.findings))
  }

  function Sent(log: seq<Attempt>, id: Id): nat {
    if log == [] then 0 else Sent(Init(log), id) + (if Last(log).message.id == id then 1 else 0)
  }

  lemma SentAppend(log: seq<Attempt>, a: Attempt, id: Id)
    ensures Sent(log + [a], id) == Sent(log, id) + (if a.message.id == id then 1 else 0)
  {
    assert Init(log + [a]) == log && Last(log + [a]) == a;
  }

  ghost predicate Quiet(m: Machine, id: Id, score: int) {
    && id in m.state.findings
    && var e := m.state.findings[id];
       e.status == Ongoing && e.lastPublished.Some? && e.lastPublishFailed.None?
       && e.score == score && e.classification == ClassificationForScore(score)
  }

  predicate SteadyStep(step: Step, id: Id, score: int) {
    && (step.Report? && step.finding.id == id ==> step.finding.score == score && step.outcome == Acked)
    && !(step.Resolve? && step.id == id)
  }

  lemma OwnReportStaysQuiet(cfg: Config, m: Machine, f: Finding)
    requires WellMade(cfg.namespace, f)
    requires !cfg.triageEnabled || f.score < cfg.minScore
    requires f.id in m.state.findings ==> Quiet(m, f.id, f.score)
    ensures var n := Apply(cfg, m, Report(f, Acked));
      && Quiet(n, f.id, f.score)
      && Sent(n.log, f.id) == Sent(m.log, f.id) + (if f.id !in m.state.findings then 1 else 0)
  {
    SentAppend(m.log, Attempt(Message(cfg, EntryFor(m.state.findings, f, m.clock), f, m.clock), Acked), f.id);
  }

  lemma OtherReportStaysQuiet(cfg: Config, m: Machine, f: Finding, o: Outcome, id: Id)
    requires f.id != id
    ensures var n := Apply(cfg, m, Report(f, o));
      && (id in n.state.findings <==> id in m.state.findings)
      && (id in m.state.findings ==> n.state.findings[id] == m.state.findings[id])
      && Sent(n.log, id) == Sent(m.log, id)
  {
    SentAppend(m.log, Attempt(Message(cfg, EntryFor(m.state.findings, f, m.clock), f, m.clock), o), id);
  }

  lemma StepStaysQuiet(cfg: Config, m: Machine, step: Step, id: Id, score: int)
    requires Enabled(cfg, m, step) && SteadyStep(step, id, score)
    requires !cfg.triageEnabled || score < cfg.minScore
    requires id in m.state.findings ==> Quiet(m, id, score)
    ensures var n := Apply(cfg, m, step);
      && (id in n.state.findings ==> Quiet(n, id, score))
      && Sent(n.log, id) == Sent(m.log, id) + (if id in n.state.findings && id !in m.state.findings then 1 else 0)
  {
    if step.Report? {
      if step.finding.id == id {
        OwnReportStaysQuiet(cfg, m, step.finding);
      } else {
        OtherReportStaysQuiet(cfg, m, step.finding, step.outcome, id);
      }
    } else if step.Resolve? {
      SentAppend(m.log, Attempt(ResolvedMessage(cfg, step.id, m.state.findings[step.id], m.clock), step.outcome), id);
    }
  }

  /** A finding that never qualifies for triage, reported at one score with every publish acknowledged, is
      published exactly once from the poll that first reports it on, for as long as its entry stays ongoing. */
  lemma {:induction false} SteadyFindingIsPublishedOnce(cfg: Config, m: Machine, steps: seq<Step>, id: Id, score: int)
    requires Valid(cfg, m, steps) && SteadyRun(cfg, m, steps, id, score)
    requires !cfg.triageEnabled || score < cfg.minScore
    requires id !in m.state.findings
    ensures var n := Run(cfg, m, steps);
      && (id in n.state.findings ==> Quiet(n, id, score))
      && Sent(n.log, id) == Sent(m.log, id) + (if id in n.state.findings then 1 else 0)
  {
    if steps != [] {
      SteadyFindingIsPublishedOnce(cfg, m, Init(steps), id, score);
      StepStaysQuiet(cfg, Run(cfg, m, Init(steps)), Last(steps), id, score);
    }
  }
}
