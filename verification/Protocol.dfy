/** monitor.go as a step machine. One step is one iteration or one phase of the code; every choice
    the environment makes (publish outcomes, map order, ties, save outcomes) is part of the step. */
module Protocol {
  import opened Base
  import opened Findings
  import opened States
  import opened Eviction
  import opened Suppression

  datatype CheckResult = CheckResult(
    findings: seq<Finding>, complete: bool, observations: map<string, Observation>)

  /** Checks build findings with NewFinding and observation keys from a fixed prefix. */
  predicate Sound(cfg: Config, r: CheckResult) {
    (forall i :: 0 <= i < |r.findings| ==> WellMade(cfg.namespace, r.findings[i])) && "" !in r.observations
  }

  /** What happens to one publish: success means acknowledged; an error says nothing about delivery. */
  datatype Outcome = Acked | Lost | ErrorButDelivered

  /** A call of PublishFinding. The instant of the call is the LastSeen of the message. */
  datatype Attempt = Attempt(message: Finding, outcome: Outcome)

  /** An acknowledged write of the state. */
  datatype Write = Write(at: Time, state: MonitorState)

  /** The monitor between two steps, with everything it has sent so far. `active` and `complete` are
      the locals of Poll; `saved` is the state of the last acknowledged write or load. */
  datatype Machine = Machine(
    state: MonitorState, active: set<Id>, complete: bool, clock: Time,
    log: seq<Attempt>, dirty: bool, lastWrite: Time, saved: MonitorState, writes: seq<Write>)

  datatype Step =
    | Begin(now: Time)
    | Accept(observations: map<string, Observation>, ok: bool)
    | Report(finding: Finding, outcome: Outcome)
    | Resolve(id: Id, outcome: Outcome)
    | Expire
    | DropStale
    | CapObservations(keys: set<string>)
    | CapFindings(ids: set<Id>)
    | ShrinkObservation(key: string)
    | ShrinkFinding(id: Id)
    | Save(at: Time, ok: bool)

  /** A process that starts with this loaded or new state. */
  function Start(state: MonitorState): Machine {
    Machine(state, {}, true, ZERO_TIME, [], false, ZERO_TIME, state, [])
  }

  function FreshStart(cfg: Config): Machine {
    Start(NewMonitorState(cfg.namespace))
  }

  // ----- collectFindings, one unsuppressed finding -----

  function EntryFor(findings: map<Id, FindingState>, f: Finding, now: Time): FindingState {
    if f.id in findings then findings[f.id]
    else FindingState(f.kind, f.name, f.check, f.reason, now, ZERO_TIME, None, None, None, None,
                      f.score, f.classification, Ongoing)
  }

  predicate CooldownOver(e: FindingState, now: Time) {
    e.cooldownUntil.None? || now > e.cooldownUntil.value
  }

  predicate Triages(cfg: Config, e: FindingState, f: Finding, now: Time) {
    cfg.triageEnabled && f.score >= cfg.minScore && CooldownOver(e, now)
  }

  function CooldownFor(cfg: Config, c: Classification): int {
    if c == IncidentLikely && cfg.cooldownIncident > 0 then cfg.cooldownIncident else cfg.cooldown
  }

  predicate MustPublish(cfg: Config, findings: map<Id, FindingState>, f: Finding, now: Time) {
    var e := EntryFor(findings, f, now);
    || f.id !in findings
    || e.status == Resolved
    || e.lastPublished.None?
    || e.lastPublishFailed.Some?
    || f.score > e.score
    || f.classification != e.classification
    || Triages(cfg, e, f, now)
  }

  function Message(cfg: Config, e: FindingState, f: Finding, now: Time): Finding {
    var m := f.(lastSeen := now, status := Ongoing, firstSeen := e.firstSeen);
    if Triages(cfg, e, f, now) then
      m.(aiTriageRequired := true, cooldownUntil := Some(now + CooldownFor(cfg, f.classification)))
    else if cfg.triageEnabled && f.score >= cfg.minScore then
      m.(cooldownUntil := e.cooldownUntil)
    else m
  }

  function Refreshed(e: FindingState, f: Finding, now: Time): FindingState {
    e.(kind := f.kind, name := f.name, check := f.check, reason := f.reason, lastSeen := now,
       score := f.score, classification := f.classification, status := Ongoing)
  }

  function ReportedEntry(cfg: Config, findings: map<Id, FindingState>, f: Finding, now: Time,
                         o: Outcome): FindingState {
    var e := EntryFor(findings, f, now);
    var r := Refreshed(e, f, now);
    if !MustPublish(cfg, findings, f, now) then r
    else if o != Acked then r.(lastPublishFailed := Some(now))
    else if Triages(cfg, e, f, now) then
      r.(lastPublished := Some(now), lastPublishFailed := None, lastAIDispatch := Some(now),
         cooldownUntil := Some(now + CooldownFor(cfg, f.classification)))
    else r.(lastPublished := Some(now), lastPublishFailed := None)
  }

  // ----- resolveMissingFindings, one entry -----

  function ResolvedMessage(cfg: Config, id: Id, e: FindingState, now: Time): Finding {
    Finding(id, cfg.namespace, e.kind, e.name, Low, Healthy, 0, e.check, e.reason, Resolved,
            e.firstSeen, now, ["deterministic check no longer reports this finding"], "", false, false, None)
  }

  function ResolvedEntry(e: FindingState, now: Time, o: Outcome): FindingState {
    if o != Acked then e.(lastPublishFailed := Some(now))
    else e.(status := Resolved, lastSeen := now, score := 0, classification := Healthy,
            lastPublished := Some(now), lastPublishFailed := None)
  }

  // ----- what the deleters may remove -----

  ghost function WithStatus(findings: map<Id, FindingState>, s: Status): set<Id> {
    set id | id in findings && findings[id].status == s
  }

  predicate IsExpired(cfg: Config, e: FindingState, now: Time) {
    cfg.resolvedRetention > 0 && e.status == Resolved && now - e.lastSeen > cfg.resolvedRetention
  }

  predicate IsStale(cfg: Config, o: Option<Observation>, now: Time) {
    && cfg.observationRetention > 0 && o.Some? && o.value.lastSeen != ZERO_TIME
    && now - o.value.lastSeen > cfg.observationRetention
  }

  ghost function Expired(cfg: Config, findings: map<Id, FindingState>, now: Time): set<Id> {
    set id | id in findings && IsExpired(cfg, findings[id], now)
  }

  ghost function Stale(cfg: Config, observations: map<string, Option<Observation>>, now: Time): set<string> {
    set k | k in observations && IsStale(cfg, observations[k], now)
  }

  ghost function FindingAges(findings: map<Id, FindingState>): map<Id, Time> {
    map id | id in findings :: findings[id].lastSeen
  }

  ghost function ObservationAges(observations: map<string, Option<Observation>>): map<string, Time> {
    map k | k in observations :: ObservationAge(observations[k])
  }

  ghost function Restrict<K, V>(m: map<K, V>, keys: set<K>): map<K, V> {
    map k | k in m && k in keys :: m[k]
  }

  ghost predicate ObservationCap(cfg: Config, observations: map<string, Option<Observation>>, gone: set<string>) {
    if cfg.maxObservations <= 0 || |observations| <= cfg.maxObservations then gone == {}
    else OldestK(ObservationAges(observations), gone, |observations| - cfg.maxObservations)
  }

  /** The cap takes the oldest resolved entries first, and the oldest of the rest only if that is not enough. */
  ghost predicate FindingCap(cfg: Config, findings: map<Id, FindingState>, gone: set<Id>) {
    var resolved := WithStatus(findings, Resolved);
    var ages := FindingAges(findings);
    if cfg.maxFindings <= 0 || |findings| <= cfg.maxFindings then gone == {}
    else if |findings| - cfg.maxFindings <= |resolved| then
      OldestK(Restrict(ages, resolved), gone, |findings| - cfg.maxFindings)
    else
      resolved <= gone && OldestK(ages - resolved, gone - resolved, |findings| - cfg.maxFindings - |resolved|)
  }

  ghost predicate TooLarge(cfg: Config, s: MonitorState) {
    cfg.maxStateBytes > 0 && StateBytes(s) > cfg.maxStateBytes
  }

  predicate Throttled(cfg: Config, lastWrite: Time, at: Time) {
    lastWrite != ZERO_TIME && at - lastWrite < cfg.stateWriteInterval
  }

  /** The gate at the top of maybeSave. */
  predicate MaySave(cfg: Config, dirty: bool, lastWrite: Time, at: Time) {
    dirty && !Throttled(cfg, lastWrite, at)
  }

  // ----- one step -----

  ghost predicate Enabled(cfg: Config, m: Machine, step: Step) {
    match step
    case Begin(now) => now > ZERO_TIME
    case Accept(_, _) => true
    case Report(f, _) => WellMade(cfg.namespace, f)
    case Resolve(id, _) =>
      m.complete && id in m.state.findings && m.state.findings[id].status == Ongoing && id !in m.active
    case Expire => true
    case DropStale => true
    case CapObservations(keys) => ObservationCap(cfg, m.state.observations, keys)
    case CapFindings(ids) => FindingCap(cfg, m.state.findings, ids)
    case ShrinkObservation(key) =>
      m.dirty && TooLarge(cfg, m.state) && MayTake(ObservationAges(m.state.observations), key)
    case ShrinkFinding(id) =>
      m.dirty && TooLarge(cfg, m.state) && m.state.observations == map[]
      && Minimum(Restrict(FindingAges(m.state.findings), WithStatus(m.state.findings, Resolved)), id)
    case Save(at, _) =>
      at >= m.clock && at > ZERO_TIME && MaySave(cfg, m.dirty, m.lastWrite, at) && !TooLarge(cfg, m.state)
  }

  function Merged(observations: map<string, Option<Observation>>, delta: map<string, Observation>)
    : map<string, Option<Observation>>
  {
    observations + map k | k in delta :: Some(delta[k])
  }

  ghost function WithoutFindings(m: Machine, ids: set<Id>): Machine {
    m.(state := m.state.(findings := m.state.findings - ids), dirty := m.dirty || ids != {})
  }

  ghost function WithoutObservations(m: Machine, keys: set<string>): Machine {
    m.(state := m.state.(observations := m.state.observations - keys), dirty := m.dirty || keys != {})
  }

  ghost function Apply(cfg: Config, m: Machine, step: Step): Machine {
    match step
    case Begin(now) => m.(active := {}, complete := true, clock := now)
    case Accept(observations, ok) =>
      m.(state := m.state.(observations := Merged(m.state.observations, observations)),
         dirty := m.dirty || observations != map[], complete := m.complete && ok)
    case Report(f, o) =>
      var findings, now := m.state.findings, m.clock;
      m.(state := m.state.(findings := findings[f.id := ReportedEntry(cfg, findings, f, now, o)]),
         active := m.active + {f.id},
         dirty := true,
         log := if MustPublish(cfg, findings, f, now)
                then m.log + [Attempt(Message(cfg, EntryFor(findings, f, now), f, now), o)] else m.log)
    case Resolve(id, o) =>
      if id !in m.state.findings then m else
      var e := m.state.findings[id];
      m.(state := m.state.(findings := m.state.findings[id := ResolvedEntry(e, m.clock, o)]),
         dirty := true,
         log := m.log + [Attempt(ResolvedMessage(cfg, id, e, m.clock), o)])
    case Expire => WithoutFindings(m, Expired(cfg, m.state.findings, m.clock))
    case DropStale => WithoutObservations(m, Stale(cfg, m.state.observations, m.clock))
    case CapObservations(keys) => WithoutObservations(m, keys)
    case CapFindings(ids) => WithoutFindings(m, ids)
    case ShrinkObservation(key) => WithoutObservations(m, {key})
    case ShrinkFinding(id) => WithoutFindings(m, {id})
    case Save(at, ok) =>
      if ok then m.(lastWrite := at, dirty := false, saved := m.state, writes := m.writes + [Write(at, m.state)])
      else m
  }

  // ----- runs of steps -----

  ghost function Run(cfg: Config, m: Machine, steps: seq<Step>): Machine {
    if steps == [] then m else Apply(cfg, Run(cfg, m, Init(steps)), Last(steps))
  }

  /** Every step is one the code could take where the run has come to. */
  ghost predicate Valid(cfg: Config, m: Machine, steps: seq<Step>) {
    steps == [] || (Valid(cfg, m, Init(steps)) && Enabled(cfg, Run(cfg, m, Init(steps)), Last(steps)))
  }

  function Init<T>(s: seq<T>): seq<T>
    requires s != []
  {
    s[..|s| - 1]
  }

  function Last<T>(s: seq<T>): T
    requires s != []
  {
    s[|s| - 1]
  }

  /** Running one list after another is running their concatenation. */
  lemma {:induction false} RunConcat(cfg: Config, m: Machine, a: seq<Step>, b: seq<Step>)
    ensures Run(cfg, m, a + b) == Run(cfg, Run(cfg, m, a), b)
    ensures Valid(cfg, m, a + b) <==> Valid(cfg, m, a) && Valid(cfg, Run(cfg, m, a), b)
    decreases |b|
  {
    if b == [] {
      assert a + b == a;
    } else {
      RunConcat(cfg, m, a, Init(b));
      assert Init(a + b) == a + Init(b) && Last(a + b) == Last(b);
    }
  }

  lemma RunOne(cfg: Config, m: Machine, a: seq<Step>, step: Step)
    requires Valid(cfg, m, a) && Enabled(cfg, Run(cfg, m, a), step)
    ensures Valid(cfg, m, a + [step]) && Run(cfg, m, a + [step]) == Apply(cfg, Run(cfg, m, a), step)
  {
    assert Init(a + [step]) == a && Last(a + [step]) == step;
  }

  lemma RunSingle(cfg: Config, m: Machine, step: Step)
    ensures Run(cfg, m, [step]) == Apply(cfg, m, step)
    ensures Valid(cfg, m, [step]) <==> Enabled(cfg, m, step)
  {
    assert Init([step]) == [] && Last([step]) == step;
  }

  lemma RunCons(cfg: Config, m: Machine, step: Step, rest: seq<Step>)
    ensures Run(cfg, m, [step] + rest) == Run(cfg, Apply(cfg, m, step), rest)
    ensures Valid(cfg, m, [step] + rest) <==> Enabled(cfg, m, step) && Valid(cfg, Apply(cfg, m, step), rest)
  {
    RunConcat(cfg, m, [step], rest);
    assert Init([step]) == [] && Last([step]) == step;
  }

  lemma {:induction false} ClockStays(cfg: Config, m: Machine, steps: seq<Step>)
    requires forall i :: 0 <= i < |steps| ==> !steps[i].Begin?
    ensures Run(cfg, m, steps).clock == m.clock
  {
    if steps != [] {
      assert Last(steps) == steps[|steps| - 1];
      ClockStays(cfg, m, Init(steps));
    }
  }

  // ----- the shape of one poll -----

  /** Everything one poll read from its environment and chose. */
  datatype Poll = Poll(
    now: Time, suppressions: set<string>, results: seq<CheckResult>,
    reports: seq<Step>, resolves: seq<Step>,
    capObservations: set<string>, capFindings: set<Id>, saving: seq<Step>)

  /** The step without what the publisher answered. */
  function Erase(step: Step): Step {
    match step
    case Report(f, _) => Report(f, Acked)
    case Resolve(id, _) => Resolve(id, Acked)
    case _ => step
  }

  function EraseAll(steps: seq<Step>): (r: seq<Step>)
    ensures |r| == |steps|
  {
    seq(|steps|, i requires 0 <= i < |steps| => Erase(steps[i]))
  }

  /** The reports that collectFindings makes of a list, up to publish outcomes. */
  function Prompts(suppressions: set<string>, findings: seq<Finding>): seq<Step> {
    if findings == [] then []
    else
      Prompts(suppressions, Init(findings)) +
      (if IsSuppressed(suppressions, Last(findings)) then [] else [Report(Last(findings), Acked)])
  }

  /** What Poll does with the accepted results, up to publish outcomes. */
  function Script(suppressions: set<string>, results: seq<CheckResult>): seq<Step> {
    if results == [] then []
    else
      var r := Last(results);
      Script(suppressions, Init(results)) + ([Accept(r.observations, r.complete)] + Prompts(suppressions, r.findings))
  }

  /** At any place of the list a finding is reported once, or not at all if it is suppressed. */
  lemma {:induction false} PromptsInOrder(suppressions: set<string>, a: seq<Finding>, f: Finding, b: seq<Finding>)
    ensures Prompts(suppressions, a + [f] + b)
         == Prompts(suppressions, a) + (if IsSuppressed(suppressions, f) then [] else [Report(f, Acked)])
            + Prompts(suppressions, b)
    decreases |b|
  {
    var all := a + [f] + b;
    if b == [] {
      assert Init(all) == a && Last(all) == f;
    } else {
      assert Init(all) == a + [f] + Init(b) && Last(all) == Last(b);
      PromptsInOrder(suppressions, a, f, Init(b));
    }
  }

  /** At any place of the results one is merged first, and then its findings are reported. */
  lemma {:induction false} ScriptInOrder(suppressions: set<string>, a: seq<CheckResult>, r: CheckResult,
                                         b: seq<CheckResult>)
    ensures Script(suppressions, a + [r] + b)
         == Script(suppressions, a) + [Accept(r.observations, r.complete)] + Prompts(suppressions, r.findings)
            + Script(suppressions, b)
    decreases |b|
  {
    var all := a + [r] + b;
    if b == [] {
      assert Init(all) == a && Last(all) == r;
    } else {
      assert Init(all) == a + [r] + Init(b) && Last(all) == Last(b);
      ScriptInOrder(suppressions, a, r, Init(b));
    }
  }

  ghost function Missing(m: Machine): set<Id> {
    WithStatus(m.state.findings, Ongoing) - m.active
  }

  /** Each id is visited once, in some order. */
  ghost predicate ResolvesEach(steps: seq<Step>, ids: set<Id>) {
    && (forall i :: 0 <= i < |steps| ==> steps[i].Resolve? && steps[i].id in ids)
    && (forall i, j :: 0 <= i < j < |steps| ==> steps[i].id != steps[j].id)
    && (forall id :: id in ids ==> exists i :: 0 <= i < |steps| && steps[i].id == id)
  }

  predicate Upkeep(step: Step) {
    !step.Begin? && !step.Accept? && !step.Report? && !step.Resolve?
  }

  predicate Saving(step: Step) {
    step.ShrinkObservation? || step.ShrinkFinding? || step.Save?
  }

  function Capping(p: Poll): seq<Step> {
    [CapFindings(p.capFindings)] + p.saving
  }

  function Pruning(p: Poll): seq<Step> {
    [Expire, DropStale, CapObservations(p.capObservations)] + Capping(p)
  }

  function Steps(p: Poll): seq<Step> {
    [Begin(p.now)] + p.reports + p.resolves + Pruning(p)
  }

  predicate AllComplete(results: seq<CheckResult>) {
    forall i :: 0 <= i < |results| ==> results[i].complete
  }

  /** The saving phase ends with one save, tried at this instant, exactly when something is unsaved, the
      throttle allows it and what the size limit leaves fits. */
  ghost predicate SavesWhenDue(cfg: Config, k: Machine, now: Time, saving: seq<Step>) {
    && (forall i :: 0 <= i < |saving| ==>
      Saving(saving[i]) && (saving[i].Save? ==> saving[i].at == now && i == |saving| - 1))
    && var n := Run(cfg, k, saving);
       if !MaySave(cfg, k.dirty, k.lastWrite, now) then saving == []
       else if TooLarge(cfg, n.state) then n.state.observations == map[] && WithStatus(n.state.findings, Resolved) == {}
       else saving != [] && Last(saving).Save?
  }

  /** The steps of this poll are what one call of Poll does with its inputs. */
  ghost predicate Shaped(cfg: Config, m: Machine, p: Poll) {
    && EraseAll(p.reports) == Script(p.suppressions, p.results)
    && (if AllComplete(p.results) then ResolvesEach(p.resolves, Missing(AfterReports(cfg, m, p)))
        else p.resolves == [])
    && (forall i :: 0 <= i < |p.saving| ==> Saving(p.saving[i]) && (p.saving[i].Save? ==> p.saving[i].at == p.now))
  }

  ghost predicate IsPoll(cfg: Config, m: Machine, p: Poll) {
    Valid(cfg, m, Steps(p)) && Shaped(cfg, m, p)
  }

  /** The poll came to its end: it tried its save exactly when one was due. */
  ghost predicate Completes(cfg: Config, m: Machine, p: Poll) {
    SavesWhenDue(cfg, Capped(cfg, AfterResolves(cfg, m, p), p.capObservations, p.capFindings), p.now, p.saving)
  }

  /** The machine of a poll after its reports, and after its resolves. */
  ghost function AfterReports(cfg: Config, m: Machine, p: Poll): Machine {
    Run(cfg, Apply(cfg, m, Begin(p.now)), p.reports)
  }

  ghost function AfterResolves(cfg: Config, m: Machine, p: Poll): Machine {
    Run(cfg, AfterReports(cfg, m, p), p.resolves)
  }

  lemma PollParts(cfg: Config, m: Machine, p: Poll)
    ensures Run(cfg, m, Steps(p)) == Run(cfg, AfterResolves(cfg, m, p), Pruning(p))
    ensures Valid(cfg, m, Steps(p)) <==>
      && p.now > ZERO_TIME
      && Valid(cfg, Apply(cfg, m, Begin(p.now)), p.reports)
      && Valid(cfg, AfterReports(cfg, m, p), p.resolves)
      && Valid(cfg, AfterResolves(cfg, m, p), Pruning(p))
  {
    RunCons(cfg, m, Begin(p.now), p.reports);
    RunConcat(cfg, m, [Begin(p.now)] + p.reports, p.resolves);
    RunConcat(cfg, m, [Begin(p.now)] + p.reports + p.resolves, Pruning(p));
  }

  /** The machine just before the observation cap, and just before the finding cap. */
  ghost function Aged(cfg: Config, k: Machine): Machine {
    Apply(cfg, Apply(cfg, k, Expire), DropStale)
  }

  ghost function BeforeCap(cfg: Config, k: Machine, keys: set<string>): Machine {
    Apply(cfg, Aged(cfg, k), CapObservations(keys))
  }

  ghost function Capped(cfg: Config, k: Machine, keys: set<string>, ids: set<Id>): Machine {
    Apply(cfg, BeforeCap(cfg, k, keys), CapFindings(ids))
  }

  lemma RunThree(cfg: Config, k: Machine, x: Step, y: Step, z: Step, rest: seq<Step>)
    ensures Run(cfg, k, [x, y, z] + rest) == Run(cfg, Apply(cfg, Apply(cfg, Apply(cfg, k, x), y), z), rest)
    ensures Valid(cfg, k, [x, y, z] + rest) <==>
      && Enabled(cfg, k, x) && Enabled(cfg, Apply(cfg, k, x), y) && Enabled(cfg, Apply(cfg, Apply(cfg, k, x), y), z)
      && Valid(cfg, Apply(cfg, Apply(cfg, Apply(cfg, k, x), y), z), rest)
  {
    RunCons(cfg, k, x, [y] + ([z] + rest));
    RunCons(cfg, Apply(cfg, k, x), y, [z] + rest);
    RunCons(cfg, Apply(cfg, Apply(cfg, k, x), y), z, rest);
    assert [x, y, z] + rest == [x] + ([y] + ([z] + rest));
  }

  lemma PruningParts(cfg: Config, k: Machine, p: Poll)
    ensures Run(cfg, k, Pruning(p)) == Run(cfg, Capped(cfg, k, p.capObservations, p.capFindings), p.saving)
    ensures Valid(cfg, k, Pruning(p)) <==>
      && Enabled(cfg, Aged(cfg, k), CapObservations(p.capObservations))
      && Enabled(cfg, BeforeCap(cfg, k, p.capObservations), CapFindings(p.capFindings))
      && Valid(cfg, Capped(cfg, k, p.capObservations, p.capFindings), p.saving)
  {
    RunThree(cfg, k, Expire, DropStale, CapObservations(p.capObservations), Capping(p));
    RunCons(cfg, BeforeCap(cfg, k, p.capObservations), CapFindings(p.capFindings), p.saving);
  }

  // ----- runs of polls -----

  ghost function RunPolls(cfg: Config, m: Machine, ps: seq<Poll>): Machine {
    if ps == [] then m else Run(cfg, RunPolls(cfg, m, Init(ps)), Steps(Last(ps)))
  }

  ghost predicate ValidPolls(cfg: Config, m: Machine, ps: seq<Poll>) {
    ps == [] || (ValidPolls(cfg, m, Init(ps)) && IsPoll(cfg, RunPolls(cfg, m, Init(ps)), Last(ps)))
  }

  ghost predicate CompletePolls(cfg: Config, m: Machine, ps: seq<Poll>) {
    ps == [] || (CompletePolls(cfg, m, Init(ps)) && Completes(cfg, RunPolls(cfg, m, Init(ps)), Last(ps)))
  }

  lemma PollsBegin(cfg: Config, m: Machine)
    ensures ValidPolls(cfg, m, []) && CompletePolls(cfg, m, []) && RunPolls(cfg, m, []) == m
  {
  }

  lemma PollsGrow(cfg: Config, m: Machine, polls: seq<Poll>, p: Poll)
    requires ValidPolls(cfg, m, polls) && IsPoll(cfg, RunPolls(cfg, m, polls), p)
    requires CompletePolls(cfg, m, polls) && Completes(cfg, RunPolls(cfg, m, polls), p)
    ensures ValidPolls(cfg, m, polls + [p]) && CompletePolls(cfg, m, polls + [p])
    ensures RunPolls(cfg, m, polls + [p]) == Run(cfg, RunPolls(cfg, m, polls), Steps(p))
  {
    assert Init(polls + [p]) == polls && Last(polls + [p]) == p;
  }

  function AllSteps(ps: seq<Poll>): seq<Step> {
    if ps == [] then [] else AllSteps(Init(ps)) + Steps(Last(ps))
  }

  /** A run of polls is a run of their steps, so what every step keeps, every run of polls keeps. */
  lemma {:induction false} PollsAreSteps(cfg: Config, m: Machine, ps: seq<Poll>)
    requires ValidPolls(cfg, m, ps)
    ensures Valid(cfg, m, AllSteps(ps)) && Run(cfg, m, AllSteps(ps)) == RunPolls(cfg, m, ps)
    decreases |ps|
  {
    if ps != [] {
      PollsAreSteps(cfg, m, Init(ps));
      RunConcat(cfg, m, AllSteps(Init(ps)), Steps(Last(ps)));
    }
  }

  /** Each poll of the list has the shape of a call of Poll where the run has come to. */
  ghost predicate AllShaped(cfg: Config, m: Machine, ps: seq<Poll>) {
    ps == [] || (AllShaped(cfg, m, Init(ps)) && Shaped(cfg, RunPolls(cfg, m, Init(ps)), Last(ps)))
  }

  function AllResults(ps: seq<Poll>): seq<CheckResult> {
    if ps == [] then [] else AllResults(Init(ps)) + Last(ps).results
  }

  /** A run of steps that is cut into shaped polls is a run of polls. */
  lemma {:induction false} ShapedArePolls(cfg: Config, m: Machine, ps: seq<Poll>)
    requires Valid(cfg, m, AllSteps(ps)) && AllShaped(cfg, m, ps)
    ensures ValidPolls(cfg, m, ps) && Run(cfg, m, AllSteps(ps)) == RunPolls(cfg, m, ps)
    decreases |ps|
  {
    if ps != [] {
      RunConcat(cfg, m, AllSteps(Init(ps)), Steps(Last(ps)));
      ShapedArePolls(cfg, m, Init(ps));
    }
  }

  /** The ids of the findings that a poll's results carry and that no suppression key hides. */
  ghost function ReportedIds(suppressions: set<string>, results: seq<CheckResult>): set<Id> {
    set i, j | 0 <= i < |results| && 0 <= j < |results[i].findings|
               && !IsSuppressed(suppressions, results[i].findings[j]) :: results[i].findings[j].id
  }
}
