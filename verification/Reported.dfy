/** From the checks to the runs: what the pods and usage checks return records the history, so every run of
    polls reports what the history says. */
module Reported {
  import opened Base
  import opened Findings
  import opened States
  import opened Protocol
  import opened History
  import opened Observed
  import Listing
  import Concurrency

  /** Which check a result came from, with what it read; None if it failed or timed out. */
  datatype Ran = Pods(pods: Option<seq<Pod>>) | Usage(samples: Option<seq<Sample>>) | Other

  /** The findings of one check. */
  function OfCheck(findings: seq<Finding>, check: string): seq<Finding> {
    if findings == [] then []
    else OfCheck(Init(findings), check) + (if Last(findings).check == check then [Last(findings)] else [])
  }

  /** The result that the check returns on these prior observations. */
  predicate Returns(cfg: Config, now: Time, prior: map<string, Observation>, ran: Ran, r: CheckResult) {
    match ran
    case Pods(Some(pods)) =>
      && r.complete && r.observations == RestartDelta(now, pods)
      && OfCheck(r.findings, "restart-rate") == RestartFindings(cfg, now, prior, pods)
    case Usage(Some(samples)) =>
      r == CheckResult(UsageFindings(cfg, now, prior, samples), true, MemoryDelta(now, prior, samples))
    case _ => r.observations == map[] && OfCheck(r.findings, "restart-rate") == []
  }

  // ----- the checks as they run -----

  lemma {:induction false} OfCheckConcat(a: seq<Finding>, b: seq<Finding>, check: string)
    ensures OfCheck(a + b, check) == OfCheck(a, check) + OfCheck(b, check)
    decreases |b|
  {
    if b == [] {
      assert a + b == a;
    } else {
      assert Init(a + b) == a + Init(b) && Last(a + b) == Last(b);
      OfCheckConcat(a, Init(b), check);
    }
  }

  /** What checkPods finds at one live pod: the findings of its own rules, then the restarts. */
  function PodFindings(cfg: Config, now: Time, prior: map<string, Observation>, rules: Pod -> seq<Finding>,
                       pod: Pod): seq<Finding> {
    rules(pod) + (if Increased(cfg, now, prior, pod) then [RestartFinding(cfg, pod)] else [])
  }

  function PodsFindings(cfg: Config, now: Time, prior: map<string, Observation>, rules: Pod -> seq<Finding>,
                        pods: seq<Pod>): seq<Finding> {
    if pods == [] then []
    else
      PodsFindings(cfg, now, prior, rules, Init(pods))
      + (if Last(pods).deleting then [] else PodFindings(cfg, now, prior, rules, Last(pods)))
  }

  function Totals(pods: seq<Pod>, now: Time): map<string, Concurrency.Scalars> {
    var delta := RestartDelta(now, pods);
    map k | k in delta :: Concurrency.Scalars(delta[k].restartCount, delta[k].lastSeen)
  }

  /** The prior observations with what the pods check reads of them. */
  function Thick(prior: map<string, Concurrency.Scalars>): map<string, Observation> {
    map k | k in prior :: Observation(prior[k].restartCount, prior[k].lastSeen, [], ZERO_TIME)
  }

  /** checkPods as the goroutine runs it. */
  function PodsJob(cfg: Config, now: Time, podsOf: seq<Listing.Resource> -> seq<Pod>,
                   rules: Pod -> seq<Finding>): Concurrency.Job {
    Concurrency.Plain((listing: Listing.Cluster, prior: map<string, Concurrency.Scalars>) =>
      if listing.pods.None? then Concurrency.Answer([], false, map[])
      else
        var pods := podsOf(listing.pods.value);
        Concurrency.Answer(PodsFindings(cfg, now, Thick(prior), rules, pods), true, Totals(pods, now)))
  }

  lemma RestartPartOfPod(cfg: Config, now: Time, prior: map<string, Observation>, rules: Pod -> seq<Finding>, pod: Pod)
    requires OfCheck(rules(pod), "restart-rate") == []
    ensures OfCheck(PodFindings(cfg, now, Thick(Concurrency.ScalarsOf(prior)), rules, pod), "restart-rate")
         == if Increased(cfg, now, prior, pod) then [RestartFinding(cfg, pod)] else []
  {
    var own := if Increased(cfg, now, prior, pod) then [RestartFinding(cfg, pod)] else [];
    OfCheckConcat(rules(pod), own, "restart-rate");
    OfCheckOne(cfg, pod);
  }

  lemma OfCheckOne(cfg: Config, pod: Pod)
    ensures OfCheck([RestartFinding(cfg, pod)], "restart-rate") == [RestartFinding(cfg, pod)]
  {
    var one := [RestartFinding(cfg, pod)];
    assert Init(one) == [] && Last(one) == one[0];
  }

  lemma {:induction false} RestartPart(cfg: Config, now: Time, prior: map<string, Observation>,
                                       rules: Pod -> seq<Finding>, pods: seq<Pod>)
    requires forall pod :: OfCheck(rules(pod), "restart-rate") == []
    ensures OfCheck(PodsFindings(cfg, now, Thick(Concurrency.ScalarsOf(prior)), rules, pods), "restart-rate")
         == RestartFindings(cfg, now, prior, pods)
  {
    if pods != [] {
      hide Increased, Thick, Concurrency.ScalarsOf, PodFindings, OfCheck, RestartFinding;
      var pod, thick := Last(pods), Thick(Concurrency.ScalarsOf(prior));
      var before := PodsFindings(cfg, now, thick, rules, Init(pods));
      RestartPart(cfg, now, prior, rules, Init(pods));
      if pod.deleting {
        assert before + [] == before;
      } else {
        RestartPartOfPod(cfg, now, prior, rules, pod);
        OfCheckConcat(before, PodFindings(cfg, now, thick, rules, pod), "restart-rate");
      }
    }
  }

  ghost predicate NoSamples(m: map<string, Observation>) {
    forall k :: k in m ==> m[k].memorySamples == [] && m[k].lastResourceSample == ZERO_TIME
  }

  lemma {:induction false} DeltaIsPlain(now: Time, pods: seq<Pod>)
    ensures NoSamples(RestartDelta(now, pods))
  {
    if pods != [] {
      DeltaIsPlain(now, Init(pods));
      var total := Observation(TotalRestarts(Last(pods).restarts), now, [], ZERO_TIME);
      assert total.memorySamples == [];
    }
  }

  /** The pods check, run alone on a listing, returns what `Returns` says. */
  lemma PodsCheckReturns(cfg: Config, now: Time, podsOf: seq<Listing.Resource> -> seq<Pod>, rules: Pod -> seq<Finding>,
                         listing: Listing.Cluster, prior: map<string, Observation>)
    requires forall pod :: OfCheck(rules(pod), "restart-rate") == []
    ensures Returns(cfg, now, prior, Pods(if listing.pods.None? then None else Some(podsOf(listing.pods.value))),
                    Concurrency.Pure(cfg, PodsJob(cfg, now, podsOf, rules), now, listing, prior))
  {
    if listing.pods.Some? {
      var pods := podsOf(listing.pods.value);
      RestartPart(cfg, now, prior, rules, pods);
      DeltaIsPlain(now, pods);
      assert NoSamples(RestartDelta(now, pods));
      var totals := Totals(pods, now);
      assert (map k | k in totals :: Observation(totals[k].restartCount, totals[k].lastSeen, [], ZERO_TIME))
        == RestartDelta(now, pods);
    }
  }

  /** So does the usage check. */
  lemma UsageCheckReturns(cfg: Config, now: Time, samples: Listing.Cluster -> Option<seq<Sample>>,
                          listing: Listing.Cluster, prior: map<string, Observation>)
    ensures Returns(cfg, now, prior, Usage(samples(listing)),
      Concurrency.Pure(cfg, Concurrency.Usage(samples), now, listing, prior))
  {
  }

  // ----- the history of a run -----

  /** At most one pods check, and after it at most one usage check. */
  ghost predicate InCheckOrder(ran: seq<Ran>, i: int, j: int) {
    i < j && forall n :: 0 <= n < |ran| ==> (ran[n].Pods? ==> n == i) && (ran[n].Usage? ==> n == j)
  }

  function PodsAt(ran: seq<Ran>, i: int): Option<seq<Pod>> {
    if 0 <= i < |ran| && ran[i].Pods? then ran[i].pods else None
  }

  function SamplesAt(ran: seq<Ran>, j: int): Option<seq<Sample>> {
    if 0 <= j < |ran| && ran[j].Usage? then ran[j].samples else None
  }

  /** The checks of one poll: what each read, and where the pods and the usage check stand among them. */
  datatype Checked = Checked(ran: seq<Ran>, podsAt: int, usageAt: int)

  /** The results of the poll are what its checks return on the observations before it. */
  ghost predicate Runs(cfg: Config, p: Poll, c: Checked, observations: map<string, Option<Observation>>) {
    && |c.ran| == |p.results| && InCheckOrder(c.ran, c.podsAt, c.usageAt)
    && forall n :: 0 <= n < |c.ran| ==> Returns(cfg, p.now, Prior(observations), c.ran[n], p.results[n])
  }

  ghost function Entry(p: Poll, c: Checked): ObsPoll {
    ObsPoll(p.now, PodsAt(c.ran, c.podsAt), SamplesAt(c.ran, c.usageAt), Evicted(p))
  }

  lemma RunsRecords(cfg: Config, p: Poll, c: Checked, observations: map<string, Option<Observation>>)
    requires Runs(cfg, p, c, observations)
    ensures Records(p, Entry(p, c), observations)
  {
    var i, j, q := c.podsAt, c.usageAt, Entry(p, c);
    assert forall n :: 0 <= n < |c.ran| ==> Returns(cfg, p.now, Prior(observations), c.ran[n], p.results[n]);
    assert OnlyTwoObserve(p.results, i, j);
    assert Delta(p.results, i) == PodsDelta(q) && Delta(p.results, j) == SamplesDelta(q, Prior(observations));
  }

  ghost predicate RunsAll(cfg: Config, ps: seq<Poll>, cs: seq<Checked>) {
    |ps| == |cs| &&
    (ps == [] ||
     (RunsAll(cfg, Init(ps), Init(cs))
      && Runs(cfg, Last(ps), Last(cs), RunPolls(cfg, FreshStart(cfg), Init(ps)).state.observations)))
  }

  /** The history that a run of polls leaves. */
  ghost function Entries(ps: seq<Poll>, cs: seq<Checked>): seq<ObsPoll> {
    if ps == [] || cs == [] then [] else Entries(Init(ps), Init(cs)) + [Entry(Last(ps), Last(cs))]
  }

  lemma {:induction false} RunsRecordAll(cfg: Config, ps: seq<Poll>, cs: seq<Checked>)
    requires RunsAll(cfg, ps, cs)
    ensures RecordsAll(cfg, ps, Entries(ps, cs))
    decreases |ps|
  {
    if ps != [] {
      RunsRecordAll(cfg, Init(ps), Init(cs));
      RunsRecords(cfg, Last(ps), Last(cs), RunPolls(cfg, FreshStart(cfg), Init(ps)).state.observations);
      var h := Entries(ps, cs);
      assert Init(h) == Entries(Init(ps), Init(cs)) && Last(h) == Entry(Last(ps), Last(cs));
    } else {
      assert Entries(ps, cs) == [];
    }
  }

  lemma {:induction false} CarriesOfCheck(findings: seq<Finding>, name: string)
    ensures Carries(findings, name) <==> Carries(OfCheck(findings, "restart-rate"), name)
  {
    if findings != [] {
      var init, f := Init(findings), Last(findings);
      var kept := if f.check == "restart-rate" then [f] else [];
      assert findings == init + [f];
      CarriesOfCheck(init, name);
      CarriesConcat(init, [f], name);
      CarriesConcat(OfCheck(init, "restart-rate"), kept, name);
      assert Carries([f], name) <==> Carries(kept, name) by {
        assert [f][0] == f;
      }
    }
  }

  lemma CarriesConcat(a: seq<Finding>, b: seq<Finding>, name: string)
    ensures Carries(a + b, name) <==> Carries(a, name) || Carries(b, name)
  {
    var all := a + b;
    assert forall i :: 0 <= i < |a| ==> all[i] == a[i];
    assert forall i :: 0 <= i < |b| ==> all[|a| + i] == b[i];
    if Carries(b, name) {
      var i :| 0 <= i < |b| && b[i].check == "restart-rate" && b[i].reason == "restarts-increased" && b[i].name == name;
      assert all[|a| + i] == b[i];
    }
    if Carries(all, name) && !Carries(a, name) {
      var i :| 0 <= i < |all| && all[i].check == "restart-rate" && all[i].reason == "restarts-increased"
        && all[i].name == name;
      assert all[i] == b[i - |a|];
    }
  }

  /** Over every run of polls from a fresh start: the next accepted result of the pods check names a pod as
      restarting only if its count rose by the threshold since the latest merged listing of that pod, at most
      RestartWindow ago; and exactly then, if neither cap nor size evicted its count, the clock went forward,
      and retention is off or at least the window. */
  lemma RestartsReportedOverRuns(cfg: Config, ps: seq<Poll>, cs: seq<Checked>, now: Time, pods: seq<Pod>,
                                 r: CheckResult, name: string)
    requires ValidPolls(cfg, FreshStart(cfg), ps) && RunsAll(cfg, ps, cs)
    requires Returns(cfg, now, Prior(RunPolls(cfg, FreshStart(cfg), ps).state.observations), Pods(Some(pods)), r)
    ensures var h := Entries(ps, cs);
      && (Carries(r.findings, name) ==> exists j :: LivePod(pods, j, name) && RisenSince(cfg, h, now, pods[j]))
      && (Undisturbed(cfg, h, now, name) ==>
            (Carries(r.findings, name) <==> exists j :: LivePod(pods, j, name) && RisenSince(cfg, h, now, pods[j])))
  {
    var h := Entries(ps, cs);
    RunsRecordAll(cfg, ps, cs);
    RunsFollowHistory(cfg, ps, h);
    CarriesOfCheck(r.findings, name);
    if Carries(r.findings, name) {
      RestartsReportedOnlyIfRisen(cfg, h, now, pods, name);
    }
    if Undisturbed(cfg, h, now, name) {
      RestartsReportedExactly(cfg, h, now, pods, name);
    }
  }

  /** And the next accepted result of the usage check finds exactly what the history of merged samples says;
      in particular it says that a pod is trending exactly when its last five samples do. */
  lemma UsageReportedOverRuns(cfg: Config, ps: seq<Poll>, cs: seq<Checked>, now: Time, samples: seq<Sample>,
                              r: CheckResult, name: string)
    requires ValidPolls(cfg, FreshStart(cfg), ps) && RunsAll(cfg, ps, cs)
    requires Returns(cfg, now, Prior(RunPolls(cfg, FreshStart(cfg), ps).state.observations), Usage(Some(samples)), r)
    ensures var h := Entries(ps, cs);
      && r.findings == FindingsOfHistory(cfg, h, samples)
      && (SaysTrending(r.findings, name) <==> exists j :: TrendsInHistory(cfg, h, samples, j, name))
  {
    var h := Entries(ps, cs);
    RunsRecordAll(cfg, ps, cs);
    RunsFollowHistory(cfg, ps, h);
    UsageIsDecidedFromHistory(cfg, h, now, samples);
    TrendIsDecidedFromHistory(cfg, h, now, samples, name);
  }

  /** In particular, over every run, it makes a finding with some reason and score exactly for the samples in that
      range of the marks and the history. */
  lemma UsageBandsOverRuns(cfg: Config, ps: seq<Poll>, cs: seq<Checked>, now: Time, samples: seq<Sample>,
                           r: CheckResult,
                           name: string, reason: string, score: int)
    requires ValidPolls(cfg, FreshStart(cfg), ps) && RunsAll(cfg, ps, cs)
    requires Returns(cfg, now, Prior(RunPolls(cfg, FreshStart(cfg), ps).state.observations), Usage(Some(samples)), r)
    ensures Says(r.findings, name, reason, score)
            <==> exists j :: BandInHistory(cfg, Entries(ps, cs), samples, j, name, reason, score)
  {
    hide Says, BandInHistory, Returns, RunsAll, ValidPolls;
    UsageReportedOverRuns(cfg, ps, cs, now, samples, r, name);
    BandsOfFindings(cfg, Entries(ps, cs), samples, name, reason, score);
  }
}
