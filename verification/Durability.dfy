/** The dirty flag, the write throttle and the size of what is written. */
module Durability {
  import opened Base
  import opened Findings
  import opened States
  import opened Protocol
  import opened Consumer
  import opened Convergence
  import opened Lifecycle

  /** A clear flag means that the last acknowledged write, or the load, holds exactly the state in memory. */
  predicate Clean(m: Machine) {
    !m.dirty ==> m.state == m.saved
  }

  lemma StepKeepsClean(cfg: Config, m: Machine, step: Step)
    requires Clean(m)
    ensures Clean(Apply(cfg, m, step))
  {
    match step
    case Accept(observations, _) =>
      if observations == map[] {
        assert Merged(m.state.observations, observations) == m.state.observations;
      }
    case Expire =>
      assert Expired(cfg, m.state.findings, m.clock) == {} ==> m.state.findings - {} == m.state.findings;
    case DropStale =>
      assert Stale(cfg, m.state.observations, m.clock) == {} ==> m.state.observations - {} == m.state.observations;
    case CapObservations(keys) =>
      assert m.state.observations - {} == m.state.observations;
    case CapFindings(ids) =>
      assert m.state.findings - {} == m.state.findings;
    case _ =>
  }

  /** Every mutator over every run sets the flag. */
  lemma {:induction false} RunKeepsClean(cfg: Config, m: Machine, steps: seq<Step>)
    requires Clean(m)
    ensures Clean(Run(cfg, m, steps))
  {
    if steps != [] {
      RunKeepsClean(cfg, m, Init(steps));
      StepKeepsClean(cfg, Run(cfg, m, Init(steps)), Last(steps));
    }
  }

  lemma CappedKeepsClean(cfg: Config, k: Machine, keys: set<string>, ids: set<Id>)
    requires Clean(k)
    ensures Clean(Capped(cfg, k, keys, ids))
  {
    StepKeepsClean(cfg, k, Expire);
    StepKeepsClean(cfg, Apply(cfg, k, Expire), DropStale);
    StepKeepsClean(cfg, Aged(cfg, k), CapObservations(keys));
    StepKeepsClean(cfg, BeforeCap(cfg, k, keys), CapFindings(ids));
  }

  // ----- the throttle -----

  ghost predicate WellWritten(cfg: Config, m: Machine) {
    && (m.writes == [] <==> m.lastWrite == ZERO_TIME)
    && (m.writes != [] ==> Last(m.writes).at == m.lastWrite && Last(m.writes).state == m.saved)
    && (forall i :: 0 <= i < |m.writes| - 1 ==> m.writes[i + 1].at - m.writes[i].at >= cfg.stateWriteInterval)
    && (forall i :: 0 <= i < |m.writes| ==> !TooLarge(cfg, m.writes[i].state))
  }

  lemma StepKeepsWellWritten(cfg: Config, m: Machine, step: Step)
    requires WellWritten(cfg, m) && Enabled(cfg, m, step)
    ensures WellWritten(cfg, Apply(cfg, m, step))
  {
  }

  /** Acknowledged writes are at least the write interval apart, and every payload fits the size limit. */
  lemma {:induction false} RunKeepsWellWritten(cfg: Config, m: Machine, steps: seq<Step>)
    requires WellWritten(cfg, m) && Valid(cfg, m, steps)
    ensures WellWritten(cfg, Run(cfg, m, steps))
  {
    if steps != [] {
      RunKeepsWellWritten(cfg, m, Init(steps));
      StepKeepsWellWritten(cfg, Run(cfg, m, Init(steps)), Last(steps));
    }
  }

  /** So with a limit no document that is acknowledged is longer than it, and with an interval none comes earlier
      than the interval after the one before. */
  lemma WritesAreFitAndSpaced(cfg: Config, loaded: MonitorState, steps: seq<Step>)
    requires Valid(cfg, Start(loaded), steps)
    ensures var writes := Run(cfg, Start(loaded), steps).writes;
      && (cfg.maxStateBytes > 0 ==>
            forall i :: 0 <= i < |writes| ==> StateBytes(writes[i].state) <= cfg.maxStateBytes)
      && (forall i :: 0 <= i < |writes| - 1 ==> writes[i + 1].at >= writes[i].at + cfg.stateWriteInterval)
  {
    RunKeepsWellWritten(cfg, Start(loaded), steps);
  }

  lemma {:induction false} SavingKeepsWriteTime(cfg: Config, m: Machine, steps: seq<Step>)
    requires m.lastWrite <= m.clock
    requires forall i :: 0 <= i < |steps| && steps[i].Save? ==> steps[i].at == m.clock
    requires forall i :: 0 <= i < |steps| ==> !steps[i].Begin?
    ensures Run(cfg, m, steps).lastWrite <= Run(cfg, m, steps).clock == m.clock
  {
    if steps != [] {
      assert Last(steps) == steps[|steps| - 1];
      SavingKeepsWriteTime(cfg, m, Init(steps));
    }
  }

  ghost predicate TimesForward(cfg: Config, m: Machine, ps: seq<Poll>) {
    ps == [] || (TimesForward(cfg, m, Init(ps)) && RunPolls(cfg, m, Init(ps)).clock <= Last(ps).now)
  }

  function AfterBegin(p: Poll): seq<Step> {
    p.reports + p.resolves + Pruning(p)
  }

  lemma PollSavesNow(cfg: Config, m: Machine, p: Poll)
    requires IsPoll(cfg, m, p)
    ensures forall i :: 0 <= i < |AfterBegin(p)| ==>
      !AfterBegin(p)[i].Begin? && (AfterBegin(p)[i].Save? ==> AfterBegin(p)[i].at == p.now)
  {
    PollReports(p);
    forall s | s in AfterBegin(p) ensures !s.Begin? && (s.Save? ==> s.at == p.now) {
      assert s in p.reports || s in p.resolves || s in Pruning(p);
      assert s in Pruning(p) ==>
        s == Expire || s == DropStale || s == CapObservations(p.capObservations) || s in Capping(p);
    }
  }

  lemma PollKeepsWriteTime(cfg: Config, m: Machine, p: Poll)
    requires IsPoll(cfg, m, p) && m.lastWrite <= m.clock <= p.now
    ensures Run(cfg, m, Steps(p)).lastWrite <= Run(cfg, m, Steps(p)).clock == p.now
  {
    hide IsPoll, Valid, Pruning;
    PollSavesNow(cfg, m, p);
    assert Steps(p) == [Begin(p.now)] + AfterBegin(p);
    RunCons(cfg, m, Begin(p.now), AfterBegin(p));
    SavingKeepsWriteTime(cfg, Apply(cfg, m, Begin(p.now)), AfterBegin(p));
  }

  lemma {:induction false} PollsKeepWriteTime(cfg: Config, m: Machine, ps: seq<Poll>)
    requires ValidPolls(cfg, m, ps) && TimesForward(cfg, m, ps) && m.lastWrite <= m.clock
    ensures RunPolls(cfg, m, ps).lastWrite <= RunPolls(cfg, m, ps).clock
  {
    if ps != [] {
      PollsKeepWriteTime(cfg, m, Init(ps));
      PollKeepsWriteTime(cfg, RunPolls(cfg, m, Init(ps)), Last(ps));
    }
  }

  lemma PollIsForward(cfg: Config, m: Machine, p: Poll)
    requires IsPoll(cfg, m, p) && m.clock <= p.now
    ensures ClockForward(cfg, m, Steps(p))
  {
    hide IsPoll, Valid, Pruning;
    var begin := [Begin(p.now)];
    PollSavesNow(cfg, m, p);
    assert Init(begin) == [] && Last(begin) == Begin(p.now);
    NoBeginIsForward(cfg, Run(cfg, m, begin), AfterBegin(p));
    ForwardConcat(cfg, m, begin, AfterBegin(p));
    assert Steps(p) == begin + AfterBegin(p);
  }

  /** Polls at times that go forward are a run with a clock that goes forward. */
  lemma {:induction false} PollsAreForward(cfg: Config, m: Machine, ps: seq<Poll>)
    requires ValidPolls(cfg, m, ps) && TimesForward(cfg, m, ps)
    ensures ClockForward(cfg, m, AllSteps(ps))
    decreases |ps|
  {
    if ps != [] {
      PollsAreForward(cfg, m, Init(ps));
      PollsAreSteps(cfg, m, Init(ps));
      PollIsForward(cfg, RunPolls(cfg, m, Init(ps)), Last(ps));
      ForwardConcat(cfg, m, AllSteps(Init(ps)), Steps(Last(ps)));
    }
  }

  /** After any run of polls, the shutdown call with now plus the interval passes the gate exactly when
      something is unsaved: the throttle never blocks it. */
  lemma FlushIsNeverThrottled(cfg: Config, loaded: MonitorState, ps: seq<Poll>, now: Time)
    requires ValidPolls(cfg, Start(loaded), ps) && TimesForward(cfg, Start(loaded), ps)
    requires RunPolls(cfg, Start(loaded), ps).clock <= now
    ensures var m := RunPolls(cfg, Start(loaded), ps);
      MaySave(cfg, m.dirty, m.lastWrite, now + cfg.stateWriteInterval) <==> m.dirty
  {
    PollsKeepWriteTime(cfg, Start(loaded), ps);
  }

  // ----- restarts -----

  /** A new process that adopts what the last acknowledged write left, facing the same consumer. */
  function Restarted(m: Machine): Machine {
    Start(m.saved).(log := m.log)
  }

  /** After a restart from the last acknowledged write, whatever was unsaved, a complete, acknowledged poll
      converges exactly when it must publish what the consumer lacks and reports what it cannot resolve.
      With a clear flag before the restart, and room under the cap, it always does. */
  lemma ConvergenceAcrossRestart(cfg: Config, before: seq<Step>, after: seq<Step>, p: Poll)
    requires Valid(cfg, FreshStart(cfg), before)
    requires var m := Restarted(Run(cfg, FreshStart(cfg), before));
      Valid(cfg, m, after) && IsPoll(cfg, Run(cfg, m, after), p)
    requires AllComplete(p.results) && AllAcked(p.reports) && AllAcked(p.resolves)
    ensures var k := Run(cfg, Restarted(Run(cfg, FreshStart(cfg), before)), after);
      OngoingIds(Run(cfg, k, Steps(p)).log) == ReportedIds(p.suppressions, p.results) <==> WillConverge(cfg, k, p)
    ensures var crashed := Run(cfg, FreshStart(cfg), before); var m := Restarted(crashed);
      !crashed.dirty && Roomy(cfg, FreshStart(cfg), before) && Roomy(cfg, m, after) ==>
        OngoingIds(Run(cfg, Run(cfg, m, after), Steps(p)).log) == ReportedIds(p.suppressions, p.results)
  {
    var m := Restarted(Run(cfg, FreshStart(cfg), before));
    PollConvergesExactly(cfg, Run(cfg, m, after), p);
    if !Run(cfg, FreshStart(cfg), before).dirty && Roomy(cfg, FreshStart(cfg), before) && Roomy(cfg, m, after) {
      CleanRestartConverges(cfg, before, after, p);
    }
  }

  lemma CleanRestartConverges(cfg: Config, before: seq<Step>, after: seq<Step>, p: Poll)
    requires Valid(cfg, FreshStart(cfg), before) && Roomy(cfg, FreshStart(cfg), before)
    requires !Run(cfg, FreshStart(cfg), before).dirty
    requires var m := Restarted(Run(cfg, FreshStart(cfg), before));
      Valid(cfg, m, after) && Roomy(cfg, m, after) && IsPoll(cfg, Run(cfg, m, after), p)
    requires AllComplete(p.results) && AllAcked(p.reports) && AllAcked(p.resolves)
    ensures var m := Restarted(Run(cfg, FreshStart(cfg), before));
      OngoingIds(Run(cfg, Run(cfg, m, after), Steps(p)).log) == ReportedIds(p.suppressions, p.results)
  {
    var start := FreshStart(cfg);
    assert Orphans(start) == {};
    RunKeepsClean(cfg, start, before);
    RunKeepsInformed(cfg, start, before);
    RunMakesNoOrphan(cfg, start, before);
    var m := Restarted(Run(cfg, start, before));
    assert m.state == Run(cfg, start, before).state;
    assert Orphans(m) == Orphans(Run(cfg, start, before));
    RunKeepsInformed(cfg, m, after);
    RunMakesNoOrphan(cfg, m, after);
    PollConverges(cfg, Run(cfg, m, after), p);
  }
}
