/** What the checks report under every interleaving: the results that the main loop accepts are those of the pods
    and usage checks on the observations before the poll, so the history theorems hold whatever goroutines do. */
module Interleaved {
  import opened Base
  import opened Findings
  import opened States
  import opened Protocol
  import opened History
  import opened Concurrency
  import opened Isolation
  import Listing
  import Reported

  // ----- where the accepted results come from -----

  /** One accepted result: the check that was waited for, the listing it was given, and whether it timed out. */
  datatype Origin = Origin(job: Option<Job>, listing: Listing.Cluster, timedOut: bool)

  ghost function Origins(cfg: Config, s: Alone, turns: seq<Turn>): seq<Origin> {
    if turns == [] then []
    else
      var k := RunAlone(cfg, s, Init(turns));
      Origins(cfg, s, Init(turns)) +
      (match Last(turns)
       case AcceptResult => if k.job.None? then [] else [Origin(k.job, k.listing, false)]
       case CheckTimeout => [Origin(k.job, k.listing, true)]
       case _ => [])
  }

  function ResultOf(cfg: Config, now: Time, prior: map<string, Observation>, o: Origin): CheckResult {
    if o.timedOut || o.job.None? then EMPTY_RESULT else Pure(cfg, o.job.value, now, o.listing, prior)
  }

  /** A turn of the main loop inside a poll. */
  predicate Inside(t: Turn) {
    OfMain(t) && !t.BeginPoll? && (t.Main? ==> !t.step.Begin?)
  }

  lemma InsideKeeps(cfg: Config, s: Alone, t: Turn)
    requires Inside(t)
    ensures var r := AloneTurn(cfg, s, t); r.prior == s.prior && r.m.clock == s.m.clock
  {
  }

  /** Inside a poll every accepted result is that of its check, run alone on the observations before the poll. */
  lemma {:induction false} PollReturns(cfg: Config, s: Alone, turns: seq<Turn>)
    requires forall i :: 0 <= i < |turns| ==> Inside(turns[i])
    ensures var n, os := RunAlone(cfg, s, turns), Origins(cfg, s, turns);
      && n.prior == s.prior && n.m.clock == s.m.clock
      && |n.results| == |s.results| + |os| && n.results[..|s.results|] == s.results
      && forall i :: 0 <= i < |os| ==> n.results[|s.results| + i] == ResultOf(cfg, s.m.clock, s.prior, os[i])
  {
    if turns != [] {
      var init, t := Init(turns), Last(turns);
      assert t == turns[|turns| - 1] && forall i :: 0 <= i < |init| ==> init[i] == turns[i];
      PollReturns(cfg, s, init);
      InsideKeeps(cfg, RunAlone(cfg, s, init), t);
      TurnReturns(cfg, RunAlone(cfg, s, init), t);
      hide AloneTurn, Pure;
    }
  }

  lemma TurnReturns(cfg: Config, k: Alone, t: Turn)
    requires Inside(t)
    ensures AloneTurn(cfg, k, t).results == k.results +
      (match t
       case AcceptResult =>
         if k.job.None? then [] else [ResultOf(cfg, k.m.clock, k.prior, Origin(k.job, k.listing, false))]
       case CheckTimeout => [ResultOf(cfg, k.m.clock, k.prior, Origin(k.job, k.listing, true))]
       case _ => [])
  {
    hide Pure, Apply;
  }

  // ----- polls as segments of an interleaving -----

  function Flat(segments: seq<seq<Turn>>): seq<Turn> {
    if segments == [] then [] else Flat(Init(segments)) + Last(segments)
  }

  /** The main loop after these segments. */
  ghost function At(cfg: Config, m: Machine, segments: seq<seq<Turn>>): Alone {
    RunAlone(cfg, AloneFrom(m), MainTurns(Flat(segments)))
  }

  /** In this segment the main loop takes exactly the steps of p, which is scripted by the results it accepts.
      Turns of any goroutines may come between them. */
  ghost predicate IsSegment(cfg: Config, s: Alone, segment: seq<Turn>, p: Poll) {
    var turns := MainTurns(segment);
    && turns != [] && turns[0].BeginPoll? && turns[0].now == p.now
    && (forall i :: 1 <= i < |turns| ==> Inside(turns[i]))
    && var n := RunAlone(cfg, s, turns);
       n.steps == s.steps + Steps(p) && n.results == s.results + p.results && Shaped(cfg, s.m, p)
  }

  ghost predicate InPolls(cfg: Config, m: Machine, segments: seq<seq<Turn>>, ps: seq<Poll>) {
    |segments| == |ps| &&
    (ps == [] ||
     (InPolls(cfg, m, Init(segments), Init(ps))
       && IsSegment(cfg, At(cfg, m, Init(segments)), Last(segments), Last(ps))))
  }

  lemma {:induction false} RunAloneConcat(cfg: Config, s: Alone, a: seq<Turn>, b: seq<Turn>)
    ensures RunAlone(cfg, s, a + b) == RunAlone(cfg, RunAlone(cfg, s, a), b)
    decreases |b|
  {
    if b == [] {
      assert a + b == a;
    } else {
      assert Init(a + b) == a + Init(b) && Last(a + b) == Last(b);
      RunAloneConcat(cfg, s, a, Init(b));
    }
  }

  lemma {:induction false} MainTurnsConcat(a: seq<Turn>, b: seq<Turn>)
    ensures MainTurns(a + b) == MainTurns(a) + MainTurns(b)
    decreases |b|
  {
    if b == [] {
      assert a + b == a && MainTurns(a) + MainTurns(b) == MainTurns(a);
    } else {
      assert Init(a + b) == a + Init(b) && Last(a + b) == Last(b);
      MainTurnsConcat(a, Init(b));
    }
  }

  /** The next segment takes the main loop on. */
  lemma AtNext(cfg: Config, m: Machine, segments: seq<seq<Turn>>)
    requires segments != []
    ensures At(cfg, m, segments) == RunAlone(cfg, At(cfg, m, Init(segments)), MainTurns(Last(segments)))
  {
    MainTurnsConcat(Flat(Init(segments)), Last(segments));
    RunAloneConcat(cfg, AloneFrom(m), MainTurns(Flat(Init(segments))), MainTurns(Last(segments)));
  }

  lemma {:induction false} AloneIsRun(cfg: Config, m: Machine, turns: seq<Turn>)
    ensures var s := RunAlone(cfg, AloneFrom(m), turns); s.m == Run(cfg, m, s.steps)
  {
    if turns != [] {
      var s, n := RunAlone(cfg, AloneFrom(m), Init(turns)), RunAlone(cfg, AloneFrom(m), turns);
      AloneIsRun(cfg, m, Init(turns));
      OneStepMore(cfg, s, Last(turns));
      if n.steps != s.steps {
        assert Init(n.steps) == s.steps;
      }
    }
  }

  lemma OneStepMore(cfg: Config, s: Alone, t: Turn)
    ensures var n := AloneTurn(cfg, s, t);
      || (n.steps == s.steps && n.m == s.m)
      || (|n.steps| == |s.steps| + 1 && n.steps[..|s.steps|] == s.steps && n.m == Apply(cfg, s.m, Last(n.steps)))
  {
    hide Apply, Pure;
  }

  lemma {:induction false} RunPollsIsRun(cfg: Config, m: Machine, ps: seq<Poll>)
    ensures RunPolls(cfg, m, ps) == Run(cfg, m, AllSteps(ps))
  {
    if ps != [] {
      RunPollsIsRun(cfg, m, Init(ps));
      RunConcat(cfg, m, AllSteps(Init(ps)), Steps(Last(ps)));
    }
  }

  lemma {:induction false} SegmentsAreScripted(cfg: Config, m: Machine, segments: seq<seq<Turn>>, ps: seq<Poll>)
    requires InPolls(cfg, m, segments, ps)
    ensures var s := At(cfg, m, segments);
      && s.steps == AllSteps(ps) && s.results == AllResults(ps) && AllShaped(cfg, m, ps)
      && s.m == RunPolls(cfg, m, ps)
    decreases |ps|
  {
    if ps != [] {
      SegmentsAreScripted(cfg, m, Init(segments), Init(ps));
      AtNext(cfg, m, segments);
    }
    AloneIsRun(cfg, m, MainTurns(Flat(segments)));
    RunPollsIsRun(cfg, m, ps);
  }

  /** The origins of the results of a poll. */
  ghost function PollOrigins(cfg: Config, s: Alone, segment: seq<Turn>): seq<Origin> {
    var turns := MainTurns(segment);
    if turns == [] then [] else Origins(cfg, AloneTurn(cfg, s, turns[0]), turns[1..])
  }

  lemma SegmentReturns(cfg: Config, s: Alone, segment: seq<Turn>, p: Poll)
    requires IsSegment(cfg, s, segment, p)
    ensures var os := PollOrigins(cfg, s, segment);
      |p.results| == |os|
      && forall i :: 0 <= i < |os| ==> p.results[i] == ResultOf(cfg, p.now, Prior(s.m.state.observations), os[i])
  {
    var turns := MainTurns(segment);
    var begun := AloneTurn(cfg, s, turns[0]);
    BeginsPoll(cfg, s, turns);
    hide Shaped, Steps, AloneTurn, Prior, ResultOf, RunAlone, Origins;
    assert forall i :: 0 <= i < |turns| - 1 ==> turns[1..][i] == turns[i + 1];
    PollReturns(cfg, begun, turns[1..]);
    AddedResults(s.results, p.results, RunAlone(cfg, s, turns).results);
  }

  lemma BeginsPoll(cfg: Config, s: Alone, turns: seq<Turn>)
    requires turns != [] && turns[0].BeginPoll?
    ensures var begun := AloneTurn(cfg, s, turns[0]);
      && RunAlone(cfg, s, turns) == RunAlone(cfg, begun, turns[1..])
      && begun.results == s.results && begun.prior == Prior(s.m.state.observations) && begun.m.clock == turns[0].now
  {
    assert turns == [turns[0]] + turns[1..];
    RunAloneConcat(cfg, s, [turns[0]], turns[1..]);
    assert Init([turns[0]]) == [] && Last([turns[0]]) == turns[0];
  }

  lemma AddedResults(before: seq<CheckResult>, added: seq<CheckResult>, after: seq<CheckResult>)
    requires after == before + added
    ensures |added| == |after| - |before| && forall i :: 0 <= i < |added| ==> added[i] == after[|before| + i]
  {
  }

  // ----- which check is which -----

  /** What a job is: the pods check with its rules, the usage check, or one that neither observes anything nor
      reports restarts. */
  datatype Kind =
    | PodsCheck(podsOf: seq<Listing.Resource> -> seq<Pod>, rules: Pod -> seq<Finding>)
    | UsageCheck(samples: Listing.Cluster -> Option<seq<Sample>>)
    | OtherCheck

  ghost predicate JobIs(cfg: Config, now: Time, kind: Kind, job: Job) {
    match kind
    case PodsCheck(podsOf, rules) =>
      && job == Reported.PodsJob(cfg, now, podsOf, rules)
      && forall pod :: Reported.OfCheck(rules(pod), "restart-rate") == []
    case UsageCheck(samples) => job == Job.Usage(samples)
    case OtherCheck =>
      job.Plain? && forall listing, prior :: ObservesNothing(job.answer(listing, prior))
  }

  predicate ObservesNothing(a: Answer) {
    a.totals == map[] && Reported.OfCheck(a.findings, "restart-rate") == []
  }

  /** What the check read; nothing if it timed out or its listing failed. */
  function RanOf(kind: Kind, o: Origin): Reported.Ran {
    match kind
    case PodsCheck(podsOf, _) =>
      Reported.Pods(if o.timedOut || o.listing.pods.None? then None else Some(podsOf(o.listing.pods.value)))
    case UsageCheck(samples) => Reported.Usage(if o.timedOut then None else samples(o.listing))
    case OtherCheck => Reported.Other
  }

  lemma OriginReturns(cfg: Config, now: Time, prior: map<string, Observation>, kind: Kind, o: Origin)
    requires o.job.Some? && JobIs(cfg, now, kind, o.job.value)
    ensures Reported.Returns(cfg, now, prior, RanOf(kind, o), ResultOf(cfg, now, prior, o))
  {
    if !o.timedOut {
      match kind
      case PodsCheck(podsOf, rules) => Reported.PodsCheckReturns(cfg, now, podsOf, rules, o.listing, prior);
      case UsageCheck(samples) => Reported.UsageCheckReturns(cfg, now, samples, o.listing, prior);
      case OtherCheck => assert ObservesNothing(o.job.value.answer(o.listing, ScalarsOf(prior)));
    }
  }

  /** The kinds of the checks of one poll, and where the pods and the usage check stand among them. */
  datatype Plan = Plan(kinds: seq<Kind>, podsAt: int, usageAt: int)

  ghost predicate Follows(cfg: Config, now: Time, plan: Plan, os: seq<Origin>) {
    && |plan.kinds| == |os| && plan.podsAt < plan.usageAt
    && forall i :: 0 <= i < |os| ==>
         && os[i].job.Some? && JobIs(cfg, now, plan.kinds[i], os[i].job.value)
         && (plan.kinds[i].PodsCheck? ==> i == plan.podsAt) && (plan.kinds[i].UsageCheck? ==> i == plan.usageAt)
  }

  ghost function CheckedBy(plan: Plan, os: seq<Origin>): Reported.Checked {
    Reported.Checked(
      seq(|os|, i requires 0 <= i < |os| => if i < |plan.kinds| then RanOf(plan.kinds[i], os[i]) else Reported.Other),
      plan.podsAt, plan.usageAt)
  }

  ghost predicate AllFollow(cfg: Config, m: Machine, segments: seq<seq<Turn>>, ps: seq<Poll>, plans: seq<Plan>) {
    |segments| == |ps| == |plans| &&
    (ps == [] ||
     (AllFollow(cfg, m, Init(segments), Init(ps), Init(plans))
      && Follows(cfg, Last(ps).now, Last(plans), PollOrigins(cfg, At(cfg, m, Init(segments)), Last(segments)))))
  }

  ghost function AllChecked(cfg: Config, m: Machine, segments: seq<seq<Turn>>, plans: seq<Plan>): seq<Reported.Checked>
    decreases |segments|
  {
    if segments == [] || plans == [] then []
    else
      AllChecked(cfg, m, Init(segments), Init(plans))
      + [CheckedBy(Last(plans), PollOrigins(cfg, At(cfg, m, Init(segments)), Last(segments)))]
  }

  lemma SegmentRuns(cfg: Config, s: Alone, segment: seq<Turn>, p: Poll, plan: Plan)
    requires IsSegment(cfg, s, segment, p) && Follows(cfg, p.now, plan, PollOrigins(cfg, s, segment))
    ensures Reported.Runs(cfg, p, CheckedBy(plan, PollOrigins(cfg, s, segment)), s.m.state.observations)
  {
    var os, prior := PollOrigins(cfg, s, segment), Prior(s.m.state.observations);
    SegmentReturns(cfg, s, segment, p);
    forall i | 0 <= i < |os|
      ensures Reported.Returns(cfg, p.now, prior, RanOf(plan.kinds[i], os[i]), p.results[i])
    {
      OriginReturns(cfg, p.now, prior, plan.kinds[i], os[i]);
    }
  }

  /** Under every interleaving, the accepted results of each poll are what its checks return on the observations
      before it. */
  lemma {:induction false} SegmentsRunAll(cfg: Config, segments: seq<seq<Turn>>, ps: seq<Poll>, plans: seq<Plan>)
    requires InPolls(cfg, FreshStart(cfg), segments, ps) && AllFollow(cfg, FreshStart(cfg), segments, ps, plans)
    ensures Reported.RunsAll(cfg, ps, AllChecked(cfg, FreshStart(cfg), segments, plans))
    decreases |ps|
  {
    if ps != [] {
      var m := FreshStart(cfg);
      SegmentsRunAll(cfg, Init(segments), Init(ps), Init(plans));
      SegmentsAreScripted(cfg, m, Init(segments), Init(ps));
      SegmentRuns(cfg, At(cfg, m, Init(segments)), Last(segments), Last(ps), Last(plans));
      var cs := AllChecked(cfg, m, segments, plans);
      assert Init(cs) == AllChecked(cfg, m, Init(segments), Init(plans));
    }
  }

  /** Restarts under every interleaving: when a poll follows any polls whose goroutines may still be running, its
      accepted pods result names a pod as restarting only if, and undisturbed exactly if, its count rose so. */
  lemma InterleavingsReportRestarts(cfg: Config, w: World, segments: seq<seq<Turn>>, ps: seq<Poll>, plans: seq<Plan>,
                                    now: Time, pods: seq<Pod>, r: CheckResult, name: string)
    requires Fresh(w) && Seen(w) == FreshStart(cfg) && Legal(cfg, w, Flat(segments))
    requires InPolls(cfg, FreshStart(cfg), segments, ps) && AllFollow(cfg, FreshStart(cfg), segments, ps, plans)
    requires var prior := Prior(Seen(Reached(cfg, w, Flat(segments))).state.observations);
      Reported.Returns(cfg, now, prior, Reported.Pods(Some(pods)), r)
    ensures var h := Reported.Entries(ps, AllChecked(cfg, FreshStart(cfg), segments, plans));
      var risen := exists j :: LivePod(pods, j, name) && RisenSince(cfg, h, now, pods[j]);
      (Carries(r.findings, name) ==> risen) && (Undisturbed(cfg, h, now, name) && risen ==> Carries(r.findings, name))
  {
    SegmentsArePolls(cfg, w, segments, ps);
    SegmentsRunAll(cfg, segments, ps, plans);
    Reported.RestartsReportedOverRuns(cfg, ps, AllChecked(cfg, FreshStart(cfg), segments, plans), now, pods, r, name);
  }

  /** And its accepted usage result finds exactly what the history of merged samples says. */
  lemma InterleavingsReportUsage(cfg: Config, w: World, segments: seq<seq<Turn>>, ps: seq<Poll>, plans: seq<Plan>,
                                 now: Time, samples: seq<Sample>, r: CheckResult)
    requires Fresh(w) && Seen(w) == FreshStart(cfg) && Legal(cfg, w, Flat(segments))
    requires InPolls(cfg, FreshStart(cfg), segments, ps) && AllFollow(cfg, FreshStart(cfg), segments, ps, plans)
    requires var prior := Prior(Seen(Reached(cfg, w, Flat(segments))).state.observations);
      Reported.Returns(cfg, now, prior, Reported.Usage(Some(samples)), r)
    ensures var h := Reported.Entries(ps, AllChecked(cfg, FreshStart(cfg), segments, plans));
      r.findings == FindingsOfHistory(cfg, h, samples)
  {
    SegmentsArePolls(cfg, w, segments, ps);
    SegmentsRunAll(cfg, segments, ps, plans);
    Reported.UsageReportedOverRuns(cfg, ps, AllChecked(cfg, FreshStart(cfg), segments, plans), now, samples, r, "");
  }

  lemma SegmentsArePolls(cfg: Config, w: World, segments: seq<seq<Turn>>, ps: seq<Poll>)
    requires Fresh(w) && Legal(cfg, w, Flat(segments)) && InPolls(cfg, Seen(w), segments, ps)
    ensures Scripted(cfg, w, Flat(segments), ps) && ValidPolls(cfg, Seen(w), ps)
    ensures Seen(Reached(cfg, w, Flat(segments))) == RunPolls(cfg, Seen(w), ps)
  {
    SegmentsAreScripted(cfg, Seen(w), segments, ps);
    InterleavingsArePolls(cfg, w, Flat(segments), ps);
  }
}
