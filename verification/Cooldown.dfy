/** When the cooldown is kept and when it is broken: exact conditions over whole runs. */
module Cooldown {
  import opened Base
  import opened Findings
  import opened Protocol
  import opened Lifecycle
  import opened Triage

  // ----- when a request is sent at all -----

  /** An acknowledged report that qualifies for triage. */
  predicate Asks(cfg: Config, step: Step, id: Id) {
    && step.Report? && step.finding.id == id && step.outcome == Acked
    && cfg.triageEnabled && step.finding.score >= cfg.minScore
  }

  /** The run makes such a report no later than this. */
  ghost predicate AskedBy(cfg: Config, m: Machine, steps: seq<Step>, id: Id, until: Time) {
    steps != [] &&
    (|| AskedBy(cfg, m, Init(steps), id, until)
     || (Asks(cfg, Last(steps), id) && Run(cfg, m, Init(steps)).clock <= until))
  }

  /** From this position on, the log holds a request for the id no later than this. */
  ghost predicate RequestedBy(log: seq<Attempt>, from: nat, id: Id, until: Time) {
    exists j :: from <= j < |log| && Requests(log[j], id) && log[j].message.lastSeen <= until
  }

  /** No cooldown holds the id back. */
  predicate Unarmed(m: Machine, id: Id) {
    id in m.state.findings ==> m.state.findings[id].cooldownUntil.None?
  }

  predicate Armed(m: Machine, id: Id, until: Time) {
    id in m.state.findings && m.state.findings[id].cooldownUntil == Some(until)
  }

  /** From m to n one more message was sent, and it is a request for the id. */
  predicate Requested(m: Machine, n: Machine, id: Id) {
    |n.log| == |m.log| + 1 && n.log[..|m.log|] == m.log && Requests(n.log[|m.log|], id)
  }

  predicate Quietly(m: Machine, n: Machine, id: Id) {
    n.log == m.log || (|n.log| == |m.log| + 1 && n.log[..|m.log|] == m.log && !Requests(n.log[|m.log|], id))
  }

  /** What a report does to the cooldown of its own id. */
  lemma OwnReportArms(cfg: Config, m: Machine, f: Finding, o: Outcome)
    requires WellMade(cfg.namespace, f)
    ensures var n := Apply(cfg, m, Report(f, o));
      var open := CooldownOver(EntryFor(m.state.findings, f, m.clock), m.clock);
      if Asks(cfg, Report(f, o), f.id) && open then
        && Requested(m, n, f.id) && n.log[|m.log|].message.lastSeen == m.clock
        && n.log[|m.log|].message.cooldownUntil.Some?
        && Armed(n, f.id, n.log[|m.log|].message.cooldownUntil.value)
      else
        && Quietly(m, n, f.id)
        && n.state.findings[f.id].cooldownUntil == EntryFor(m.state.findings, f, m.clock).cooldownUntil
  {
  }

  /** What any step does to the cooldown of an id. */
  lemma StepArms(cfg: Config, m: Machine, step: Step, id: Id)
    requires Enabled(cfg, m, step)
    ensures var n := Apply(cfg, m, step);
      var open := id in m.state.findings ==> CooldownOver(m.state.findings[id], m.clock);
      if Asks(cfg, step, id) && open then
        && Requested(m, n, id) && n.log[|m.log|].message.lastSeen == m.clock
        && n.log[|m.log|].message.cooldownUntil.Some?
        && Armed(n, id, n.log[|m.log|].message.cooldownUntil.value)
      else
        && Quietly(m, n, id)
        && (id in n.state.findings ==>
              n.state.findings[id].cooldownUntil
              == if id in m.state.findings then m.state.findings[id].cooldownUntil else None)
    ensures step.Begin? || Apply(cfg, m, step).clock == m.clock
  {
    if step.Report? && step.finding.id == id {
      OwnReportArms(cfg, m, step.finding, step.outcome);
    } else if step.Report? {
      hide MustPublish, Triages, CooldownFor, Requests, ReportedEntry;
      OtherReportIsQuiet(cfg, m, step.finding, step.outcome, id);
    } else if step.Resolve? {
      OwnResolveIsQuiet(cfg, m, step.id, step.outcome, id);
    }
  }

  lemma OtherReportIsQuiet(cfg: Config, m: Machine, f: Finding, o: Outcome, id: Id)
    requires f.id != id
    ensures var n := Apply(cfg, m, Report(f, o));
      && Quietly(m, n, id) && (id in n.state.findings <==> id in m.state.findings)
      && (id in m.state.findings ==> n.state.findings[id] == m.state.findings[id])
  {
    hide MustPublish, Triages, CooldownFor, ReportedEntry;
  }

  lemma OwnResolveIsQuiet(cfg: Config, m: Machine, r: Id, o: Outcome, id: Id)
    requires r in m.state.findings
    ensures var n := Apply(cfg, m, Resolve(r, o));
      && Quietly(m, n, id) && (id in n.state.findings <==> id in m.state.findings)
      && (id in m.state.findings ==> n.state.findings[id].cooldownUntil == m.state.findings[id].cooldownUntil)
  {
  }

  /** For an id that no cooldown holds back, a request is acknowledged by some instant exactly if the run makes
      an acknowledged, qualifying report of the id by then. */
  lemma {:induction false} RequestsExactly(cfg: Config, m: Machine, steps: seq<Step>, id: Id, until: Time)
    requires Unarmed(m, id) && Valid(cfg, m, steps) && ClockForward(cfg, m, steps)
    ensures var n := Run(cfg, m, steps);
      && |m.log| <= |n.log| && n.log[..|m.log|] == m.log
      && (RequestedBy(n.log, |m.log|, id, until) <==> AskedBy(cfg, m, steps, id, until))
      && (AskedBy(cfg, m, steps, id, until) || n.clock > until || Unarmed(n, id))
  {
    if steps != [] {
      var k, n := Run(cfg, m, Init(steps)), Run(cfg, m, steps);
      RequestsExactly(cfg, m, Init(steps), id, until);
      StepArms(cfg, k, Last(steps), id);
      RequestedGrows(k.log, n.log, |m.log|, id, until);
    }
  }

  lemma RequestedGrows(a: seq<Attempt>, b: seq<Attempt>, from: nat, id: Id, until: Time)
    requires from <= |a| <= |b| <= |a| + 1 && b[..|a|] == a
    ensures RequestedBy(b, from, id, until) <==>
      || RequestedBy(a, from, id, until)
      || (|b| == |a| + 1 && Requests(b[|a|], id) && b[|a|].message.lastSeen <= until)
  {
    assert forall j :: 0 <= j < |a| ==> b[j] == a[j];
  }

  // ----- when the spacing breaks -----

  /** Step e deletes the entry inside its cooldown, and the run asks for triage again before that cooldown ends. */
  ghost predicate BreaksAt(cfg: Config, m: Machine, steps: seq<Step>, e: int, id: Id) {
    0 <= e < |steps|
    && var k, n := Run(cfg, m, steps[..e]), Run(cfg, m, steps[..e + 1]);
       && LosesCooldown(k, n, id)
       && AskedBy(cfg, n, steps[e + 1..], id, k.state.findings[id].cooldownUntil.value)
  }

  predicate LosesCooldown(k: Machine, n: Machine, id: Id) {
    && id in k.state.findings && id !in n.state.findings
    && k.state.findings[id].cooldownUntil.Some? && k.clock <= k.state.findings[id].cooldownUntil.value
  }

  /** Step e deletes the entry while its cooldown lasts at least until then. */
  ghost predicate LosesAt(cfg: Config, m: Machine, steps: seq<Step>, e: int, id: Id, until: Time) {
    0 <= e < |steps|
    && var k := Run(cfg, m, steps[..e]);
       LosesCooldown(k, Run(cfg, m, steps[..e + 1]), id) && until <= k.state.findings[id].cooldownUntil.value
  }

  /** Each request's cooldown is over, or the entry holds it, or a step deleted the entry that held it. */
  ghost predicate Accounted(cfg: Config, m: Machine, steps: seq<Step>, id: Id) {
    var n := Run(cfg, m, steps);
    forall i :: 0 <= i < |n.log| && Requests(n.log[i], id) && n.log[i].message.cooldownUntil.Some? ==>
      var until := n.log[i].message.cooldownUntil.value;
      n.clock > until || Holds(n, id, until) || exists e :: LosesAt(cfg, m, steps, e, id, until)
  }

  predicate Holds(m: Machine, id: Id, until: Time) {
    id in m.state.findings && m.state.findings[id].cooldownUntil.Some?
      && m.state.findings[id].cooldownUntil.value >= until
  }

  lemma PrefixOfInit(steps: seq<Step>, e: int)
    requires 0 <= e < |steps|
    ensures steps[..e] == Init(steps)[..e]
    ensures e < |steps| - 1 ==>
      steps[..e + 1] == Init(steps)[..e + 1] && steps[e + 1..] == Init(steps)[e + 1..] + [Last(steps)]
    ensures e == |steps| - 1 ==> steps[..e] == Init(steps) && steps[..e + 1] == steps
  {
  }

  lemma LossStays(cfg: Config, m: Machine, steps: seq<Step>, e: int, id: Id, until: Time)
    requires steps != [] && LosesAt(cfg, m, Init(steps), e, id, until)
    ensures LosesAt(cfg, m, steps, e, id, until)
  {
    PrefixOfInit(steps, e);
  }

  lemma {:induction false} RunAccounts(cfg: Config, m: Machine, steps: seq<Step>, id: Id)
    requires m.log == [] && Valid(cfg, m, steps) && ClockForward(cfg, m, steps)
    ensures Accounted(cfg, m, steps, id)
  {
    if steps != [] {
      var k, n := Run(cfg, m, Init(steps)), Run(cfg, m, steps);
      RunAccounts(cfg, m, Init(steps), id);
      StepArms(cfg, k, Last(steps), id);
      forall i | 0 <= i < |n.log| && Requests(n.log[i], id) && n.log[i].message.cooldownUntil.Some?
        ensures var until := n.log[i].message.cooldownUntil.value;
          n.clock > until || Holds(n, id, until) || exists e :: LosesAt(cfg, m, steps, e, id, until)
      {
        StaysAccounted(cfg, m, steps, id, i);
      }
    }
  }

  lemma GrowsByOne(cfg: Config, k: Machine, step: Step, id: Id)
    requires Enabled(cfg, k, step)
    ensures var n := Apply(cfg, k, step); |k.log| <= |n.log| <= |k.log| + 1 && n.log[..|k.log|] == k.log
  {
    StepArms(cfg, k, step, id);
  }

  lemma StaysAccounted(cfg: Config, m: Machine, steps: seq<Step>, id: Id, i: nat)
    requires steps != [] && Valid(cfg, m, steps) && ClockForward(cfg, m, steps) && Accounted(cfg, m, Init(steps), id)
    requires var n := Run(cfg, m, steps);
      i < |n.log| && Requests(n.log[i], id) && n.log[i].message.cooldownUntil.Some?
    ensures var n := Run(cfg, m, steps); var until := n.log[i].message.cooldownUntil.value;
      n.clock > until || Holds(n, id, until) || exists e :: LosesAt(cfg, m, steps, e, id, until)
  {
    hide Apply, Enabled, Requests, Holds, LosesAt, LosesCooldown;
    var k, n := Run(cfg, m, Init(steps)), Run(cfg, m, steps);
    var until := n.log[i].message.cooldownUntil.value;
    GrowsByOne(cfg, k, Last(steps), id);
    assert forall x :: 0 <= x < |k.log| ==> n.log[x] == k.log[x];
    if i == |k.log| {
      NewRequestIsHeld(cfg, k, Last(steps), id);
    } else if exists e :: LosesAt(cfg, m, Init(steps), e, id, until) {
      var e :| LosesAt(cfg, m, Init(steps), e, id, until);
      LossStays(cfg, m, steps, e, id, until);
    } else if n.clock <= until {
      NoClockBack(cfg, k, Last(steps));
      assert Requests(k.log[i], id) && Holds(k, id, until);
      HeldOrLost(cfg, k, Last(steps), id, until);
      if LosesCooldown(k, n, id) {
        LastLoses(cfg, m, steps, id, until);
        assert LosesAt(cfg, m, steps, |steps| - 1, id, until);
      }
    }
  }

  lemma NoClockBack(cfg: Config, k: Machine, step: Step)
    requires step.Begin? ==> k.clock <= step.now
    ensures k.clock <= Apply(cfg, k, step).clock
  {
  }

  lemma NewRequestIsHeld(cfg: Config, k: Machine, step: Step, id: Id)
    requires Enabled(cfg, k, step)
    requires var n := Apply(cfg, k, step);
      |n.log| == |k.log| + 1 && Requests(n.log[|k.log|], id) && n.log[|k.log|].message.cooldownUntil.Some?
    ensures var n := Apply(cfg, k, step); Holds(n, id, n.log[|k.log|].message.cooldownUntil.value)
  {
    StepArms(cfg, k, step, id);
  }

  lemma HeldOrLost(cfg: Config, k: Machine, step: Step, id: Id, until: Time)
    requires Enabled(cfg, k, step) && k.clock <= until && Holds(k, id, until)
    ensures var n := Apply(cfg, k, step); Holds(n, id, until) || LosesCooldown(k, n, id)
  {
    StepArms(cfg, k, step, id);
    hide Apply, Enabled, Asks, Requests;
  }

  lemma LastLoses(cfg: Config, m: Machine, steps: seq<Step>, id: Id, until: Time)
    requires steps != [] && Holds(Run(cfg, m, Init(steps)), id, until)
    requires LosesCooldown(Run(cfg, m, Init(steps)), Run(cfg, m, steps), id)
    ensures LosesAt(cfg, m, steps, |steps| - 1, id, until)
  {
    PrefixOfInit(steps, |steps| - 1);
  }

  lemma {:induction false} ClockForwardSplits(cfg: Config, m: Machine, a: seq<Step>, b: seq<Step>)
    requires ClockForward(cfg, m, a + b)
    ensures ClockForward(cfg, Run(cfg, m, a), b)
    decreases |b|
  {
    if b != [] {
      assert Init(a + b) == a + Init(b) && Last(a + b) == Last(b);
      ClockForwardSplits(cfg, m, a, Init(b));
      RunConcat(cfg, m, a, Init(b));
    }
  }

  /** A run is a run up to a step, the step, and the rest. */
  lemma RunSplits(cfg: Config, m: Machine, steps: seq<Step>, e: nat)
    requires e < |steps| && Valid(cfg, m, steps) && ClockForward(cfg, m, steps)
    ensures var k, n := Run(cfg, m, steps[..e]), Run(cfg, m, steps[..e + 1]);
      && Valid(cfg, m, steps[..e]) && Enabled(cfg, k, steps[e]) && n == Apply(cfg, k, steps[e])
      && Valid(cfg, n, steps[e + 1..]) && Run(cfg, m, steps) == Run(cfg, n, steps[e + 1..])
      && ClockForward(cfg, n, steps[e + 1..])
  {
    var a, b := steps[..e + 1], steps[e + 1..];
    assert steps == a + b && Init(a) == steps[..e] && Last(a) == steps[e];
    RunConcat(cfg, m, a, b);
    ClockForwardSplits(cfg, m, a, b);
  }

  /** A cooldown that an entry holds came from a request for its id. */
  ghost predicate FromRequest(m: Machine, id: Id) {
    id in m.state.findings && m.state.findings[id].cooldownUntil.Some? ==>
      exists i :: 0 <= i < |m.log| && Requests(m.log[i], id)
                  && m.log[i].message.cooldownUntil == m.state.findings[id].cooldownUntil
  }

  lemma {:induction false} RunArmsByRequest(cfg: Config, m: Machine, steps: seq<Step>, id: Id)
    requires Unarmed(m, id) && Valid(cfg, m, steps)
    ensures FromRequest(Run(cfg, m, steps), id)
  {
    if steps != [] {
      var k, n := Run(cfg, m, Init(steps)), Run(cfg, m, steps);
      RunArmsByRequest(cfg, m, Init(steps), id);
      StepArms(cfg, k, Last(steps), id);
      hide Apply, Enabled, Requests;
      if id in n.state.findings && n.state.findings[id].cooldownUntil.Some? {
        if Requested(k, n, id) {
          assert Requests(n.log[|k.log|], id);
        } else {
          var i :| 0 <= i < |k.log| && Requests(k.log[i], id)
                   && k.log[i].message.cooldownUntil == k.state.findings[id].cooldownUntil;
          assert n.log[i] == k.log[i];
        }
      }
    }
  }

  lemma BreakingIsNotSpaced(cfg: Config, m: Machine, steps: seq<Step>, e: nat, id: Id)
    requires Unarmed(m, id) && Valid(cfg, m, steps) && ClockForward(cfg, m, steps) && BreaksAt(cfg, m, steps, e, id)
    ensures !Spaced(Run(cfg, m, steps).log, id)
  {
    hide Apply, Enabled, Requests;
    var k, n, last := Run(cfg, m, steps[..e]), Run(cfg, m, steps[..e + 1]), Run(cfg, m, steps);
    var until := k.state.findings[id].cooldownUntil.value;
    RunSplits(cfg, m, steps, e);
    RunArmsByRequest(cfg, m, steps[..e], id);
    StepArms(cfg, k, steps[e], id);
    RequestsExactly(cfg, n, steps[e + 1..], id, until);
    var i :| 0 <= i < |k.log| && Requests(k.log[i], id) && k.log[i].message.cooldownUntil == Some(until);
    var j :| |n.log| <= j < |last.log| && Requests(last.log[j], id) && last.log[j].message.lastSeen <= until;
    assert last.log[i] == n.log[i] == k.log[i];
  }

  lemma BreakStays(cfg: Config, m: Machine, steps: seq<Step>, e: int, id: Id)
    requires steps != [] && BreaksAt(cfg, m, Init(steps), e, id)
    ensures BreaksAt(cfg, m, steps, e, id)
  {
    PrefixOfInit(steps, e);
    var rest := steps[e + 1..];
    assert Init(rest) == Init(steps)[e + 1..];
  }

  /** A loss followed by a qualifying report at the end of the run breaks the spacing. */
  lemma LossBreaks(cfg: Config, m: Machine, steps: seq<Step>, e: int, id: Id, until: Time)
    requires steps != [] && LosesAt(cfg, m, Init(steps), e, id, until)
    requires Asks(cfg, Last(steps), id) && Run(cfg, m, Init(steps)).clock <= until
    ensures BreaksAt(cfg, m, steps, e, id)
  {
    PrefixOfInit(steps, e);
    var a, rest := steps[..e + 1], steps[e + 1..];
    assert Init(rest) == Init(steps)[e + 1..] && Last(rest) == Last(steps);
    assert Init(steps) == a + Init(rest);
    RunConcat(cfg, m, a, Init(rest));
  }

  lemma {:induction false} NotSpacedBreaks(cfg: Config, m: Machine, steps: seq<Step>, id: Id) returns (e: int)
    requires m.log == [] && Valid(cfg, m, steps) && ClockForward(cfg, m, steps)
    requires !Spaced(Run(cfg, m, steps).log, id)
    ensures BreaksAt(cfg, m, steps, e, id)
  {
    hide Apply, Enabled, Requests, BreaksAt, LosesAt, Asks;
    var k, n := Run(cfg, m, Init(steps)), Run(cfg, m, steps);
    if !Spaced(k.log, id) {
      e := NotSpacedBreaks(cfg, m, Init(steps), id);
      BreakStays(cfg, m, steps, e, id);
    } else {
      StepArms(cfg, k, Last(steps), id);
      RunAccounts(cfg, m, Init(steps), id);
      var i := TooEarly(k, n, id);
      var until := n.log[i].message.cooldownUntil.value;
      assert !Holds(k, id, until) && k.clock <= until;
      e :| LosesAt(cfg, m, Init(steps), e, id, until);
      LossBreaks(cfg, m, steps, e, id, until);
    }
  }

  /** If the spacing breaks with one more message, that message is a request inside an earlier cooldown. */
  lemma TooEarly(k: Machine, n: Machine, id: Id) returns (i: nat)
    requires Spaced(k.log, id) && !Spaced(n.log, id) && (Quietly(k, n, id) || Requested(k, n, id))
    ensures Requested(k, n, id) && i < |k.log| && n.log[i] == k.log[i]
    ensures Requests(n.log[i], id) && n.log[i].message.cooldownUntil.Some?
    ensures n.log[|k.log|].message.lastSeen <= n.log[i].message.cooldownUntil.value
  {
    hide Requests;
    assert forall x :: 0 <= x < |k.log| ==> n.log[x] == k.log[x];
    var a, j :| 0 <= a < j < |n.log| && Requests(n.log[a], id) && Requests(n.log[j], id)
                && n.log[a].message.cooldownUntil.Some?
                && n.log[j].message.lastSeen <= n.log[a].message.cooldownUntil.value;
    i := a;
  }

  /** Over every run with a clock that goes forward, for every configuration: each request for an id comes after
      the cooldown of every earlier one, exactly if no step deletes the entry inside a cooldown before whose end
      the id is reported again, acknowledged and qualifying. */
  lemma CooldownExactly(cfg: Config, steps: seq<Step>, id: Id)
    requires Valid(cfg, FreshStart(cfg), steps) && ClockForward(cfg, FreshStart(cfg), steps)
    ensures Spaced(Run(cfg, FreshStart(cfg), steps).log, id)
      <==> !exists e :: BreaksAt(cfg, FreshStart(cfg), steps, e, id)
  {
    var start := FreshStart(cfg);
    if !Spaced(Run(cfg, start, steps).log, id) {
      var e := NotSpacedBreaks(cfg, start, steps, id);
    }
    if e :| BreaksAt(cfg, start, steps, e, id) {
      BreakingIsNotSpaced(cfg, start, steps, e, id);
    }
  }

  // ----- which step it can be -----

  function LongestCooldown(cfg: Config): int {
    if cfg.cooldownIncident > 0 && cfg.cooldownIncident > cfg.cooldown then cfg.cooldownIncident else cfg.cooldown
  }

  /** A cooldown ends at most the longest cooldown after the entry was seen last. */
  ghost predicate Bounded(cfg: Config, m: Machine, id: Id) {
    id in m.state.findings && m.state.findings[id].cooldownUntil.Some? ==>
      m.state.findings[id].cooldownUntil.value <= m.state.findings[id].lastSeen + LongestCooldown(cfg)
  }

  lemma StepKeepsBounded(cfg: Config, m: Machine, step: Step, id: Id)
    requires Bounded(cfg, m, id) && Timely(m)
    ensures Bounded(cfg, Apply(cfg, m, step), id)
  {
    if step.Report? && step.finding.id == id {
      hide Message, MustPublish;
    }
  }

  lemma {:induction false} RunKeepsBounded(cfg: Config, m: Machine, steps: seq<Step>, id: Id)
    requires Bounded(cfg, m, id) && Timely(m) && ClockForward(cfg, m, steps)
    ensures Bounded(cfg, Run(cfg, m, steps), id) && Timely(Run(cfg, m, steps))
  {
    if steps != [] {
      RunKeepsBounded(cfg, m, Init(steps), id);
      StepKeepsBounded(cfg, Run(cfg, m, Init(steps)), Last(steps), id);
    }
    RunKeepsTimely(cfg, m, steps);
  }

  /** When retention is off or at least every cooldown, only the cap and the size limit can break the spacing. */
  lemma OnlyEvictionBreaks(cfg: Config, steps: seq<Step>, e: nat, id: Id)
    requires Valid(cfg, FreshStart(cfg), steps) && ClockForward(cfg, FreshStart(cfg), steps) && LongRetention(cfg)
    requires BreaksAt(cfg, FreshStart(cfg), steps, e, id)
    ensures Evicts(steps[e], id)
  {
    hide Apply, Enabled, Bounded, AskedBy;
    var start := FreshStart(cfg);
    FreshIsBounded(cfg, id);
    RunSplits(cfg, start, steps, e);
    assert steps == steps[..e] + steps[e..];
    ClockForwardPrefix(cfg, start, steps[..e], steps[e..]);
    RunKeepsBounded(cfg, start, steps[..e], id);
    LossIsEviction(cfg, Run(cfg, start, steps[..e]), steps[e], id);
  }

  lemma FreshIsBounded(cfg: Config, id: Id)
    ensures Bounded(cfg, FreshStart(cfg), id) && Timely(FreshStart(cfg))
  {
  }

  lemma LossIsEviction(cfg: Config, k: Machine, step: Step, id: Id)
    requires Bounded(cfg, k, id) && Timely(k) && Enabled(cfg, k, step) && LongRetention(cfg)
    requires LosesCooldown(k, Apply(cfg, k, step), id)
    ensures Evicts(step, id)
  {
  }

  lemma {:induction false} ClockForwardPrefix(cfg: Config, m: Machine, a: seq<Step>, b: seq<Step>)
    requires ClockForward(cfg, m, a + b)
    ensures ClockForward(cfg, m, a)
    decreases |b|
  {
    if b == [] {
      assert a + b == a;
    } else {
      assert Init(a + b) == a + Init(b);
      ClockForwardPrefix(cfg, m, a, Init(b));
    }
  }
}
