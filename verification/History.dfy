/** checks.go: what the stored observations remember of the polls before. */
module History {
  import opened Base
  import opened Findings
  import opened States
  import opened Protocol

  // ----- restart counts -----

  const TWO_31: int := 0x8000_0000
  const TWO_32: int := 0x1_0000_0000

  /** Restart counts are int32 in the source. */
  function Wrap32(x: int): int {
    (x + TWO_31) % TWO_32 - TWO_31
  }

  datatype Pod = Pod(name: string, deleting: bool, restarts: seq<int>)

  /** The sum over the containers, with the wrap-around of int32. */
  function TotalRestarts(restarts: seq<int>): int {
    if restarts == [] then 0 else Wrap32(TotalRestarts(Init(restarts)) + Last(restarts))
  }

  function RestartKey(pod: string): string {
    "pod/" + pod + "/restarts"
  }

  function MemoryKey(pod: string): string {
    "pod/" + pod + "/memory"
  }

  lemma KeysNeverCollide(a: string, b: string)
    ensures RestartKey(a) != MemoryKey(b)
    ensures RestartKey(a) == RestartKey(b) <==> a == b
    ensures MemoryKey(a) == MemoryKey(b) <==> a == b
    ensures RestartKey(a) != "" && MemoryKey(a) != ""
  {
    assert RestartKey(a)[|RestartKey(a)| - 1] == 's' && MemoryKey(b)[|MemoryKey(b)| - 1] == 'y';
    if RestartKey(a) == RestartKey(b) {
      assert RestartKey(a)[4..|RestartKey(a)| - 9] == a && RestartKey(b)[4..|RestartKey(b)| - 9] == b;
    }
    if MemoryKey(a) == MemoryKey(b) {
      assert MemoryKey(a)[4..|MemoryKey(a)| - 7] == a && MemoryKey(b)[4..|MemoryKey(b)| - 7] == b;
    }
  }

  /** The comparison in checkPods for one live pod. */
  predicate Increased(cfg: Config, now: Time, prior: map<string, Observation>, pod: Pod) {
    var key := RestartKey(pod.name);
    && key in prior
    && now - prior[key].lastSeen <= cfg.restartWindow
    && Wrap32(TotalRestarts(pod.restarts) - prior[key].restartCount) >= cfg.restartWarningCount
  }

  function RestartFinding(cfg: Config, pod: Pod): Finding {
    NewFinding(cfg.namespace, "Pod", pod.name, "restart-rate", "restarts-increased", 65, [])
  }

  /** What the pods check stores: the totals of the live pods, the last listed one of a name counting. */
  function RestartDelta(now: Time, pods: seq<Pod>): map<string, Observation> {
    if pods == [] then map[]
    else if Last(pods).deleting then RestartDelta(now, Init(pods))
    else RestartDelta(now, Init(pods))[RestartKey(Last(pods).name) :=
           Observation(TotalRestarts(Last(pods).restarts), now, [], ZERO_TIME)]
  }

  function RestartFindings(cfg: Config, now: Time, prior: map<string, Observation>, pods: seq<Pod>): seq<Finding> {
    if pods == [] then []
    else
      RestartFindings(cfg, now, prior, Init(pods))
      + (if !Last(pods).deleting && Increased(cfg, now, prior, Last(pods)) then [RestartFinding(cfg, Last(pods))]
        else [])
  }

  /** The restart part of checkPods: it reads the prior observations of the snapshot, never the new ones. */
  method CheckRestarts(cfg: Config, now: Time, prior: map<string, Observation>, pods: seq<Pod>)
    returns (findings: seq<Finding>, observations: map<string, Observation>)
    ensures findings == RestartFindings(cfg, now, prior, pods)
    ensures observations == RestartDelta(now, pods)
  {
    findings, observations := [], map[];
    for i := 0 to |pods|
      invariant findings == RestartFindings(cfg, now, prior, pods[..i])
      invariant observations == RestartDelta(now, pods[..i])
    {
      var pod := pods[i];
      assert Init(pods[..i + 1]) == pods[..i] && Last(pods[..i + 1]) == pod;
      if pod.deleting {
        continue;
      }
      var total := 0;
      for j := 0 to |pod.restarts|
        invariant total == TotalRestarts(pod.restarts[..j])
      {
        assert Init(pod.restarts[..j + 1]) == pod.restarts[..j] && Last(pod.restarts[..j + 1]) == pod.restarts[j];
        total := Wrap32(total + pod.restarts[j]);
      }
      assert pod.restarts[..|pod.restarts|] == pod.restarts;
      var key := RestartKey(pod.name);
      if key in prior && now - prior[key].lastSeen <= cfg.restartWindow {
        var delta := Wrap32(total - prior[key].restartCount);
        if delta >= cfg.restartWarningCount {
          findings := findings + [RestartFinding(cfg, pod)];
        }
      }
      observations := observations[key := Observation(total, now, [], ZERO_TIME)];
    }
    assert pods[..|pods|] == pods;
  }

  // ----- memory samples -----

  /** A pod's memory usage in percent of its limit. */
  datatype Sample = Sample(pod: string, percent: int)

  const SAMPLE_WINDOW: nat := 5

  function LastN(s: seq<int>, n: nat): seq<int> {
    if |s| > n then s[|s| - n..] else s
  }

  function AppendMemSample(samples: seq<int>, val: int, maxLen: nat): seq<int> {
    LastN(samples + [val], maxLen)
  }

  lemma WindowStep(all: seq<int>, val: int, n: nat)
    requires n > 0
    ensures AppendMemSample(LastN(all, n), val, n) == LastN(all + [val], n)
  {
  }

  predicate MemoryTrending(samples: seq<int>) {
    |samples| >= 3 && samples[|samples| - 1] > samples[0] && samples[|samples| - 1] - samples[0] >= 10
  }

  function Sampled(now: Time, prior: map<string, Observation>, s: Sample): Observation {
    var base := if MemoryKey(s.pod) in prior then prior[MemoryKey(s.pod)] else Observation(0, now, [], ZERO_TIME);
    base.(memorySamples := AppendMemSample(base.memorySamples, s.percent, SAMPLE_WINDOW), lastResourceSample := now)
  }

  /** The switch at the end of checkResourceUsage: score and reason, or nothing. */
  function UsageBand(cfg: Config, percent: int, window: seq<int>): Option<(int, string)> {
    if percent >= cfg.memoryCriticalPercent then Some((80, "memory-critical"))
    else if percent >= cfg.memoryWarningPercent && MemoryTrending(window) then Some((72, "memory-trending-to-limit"))
    else if percent >= cfg.memoryWarningPercent then Some((62, "memory-high"))
    else if MemoryTrending(window) && percent >= 50 then Some((45, "memory-trending"))
    else None
  }

  function MemoryDelta(now: Time, prior: map<string, Observation>, samples: seq<Sample>): map<string, Observation> {
    if samples == [] then map[]
    else MemoryDelta(now, prior, Init(samples))[MemoryKey(Last(samples).pod) := Sampled(now, prior, Last(samples))]
  }

  /** The finding for one sample, with this window of samples up to it. */
  function UsageFinding(cfg: Config, s: Sample, window: seq<int>): seq<Finding> {
    var band := UsageBand(cfg, s.percent, window);
    if band.Some? then [NewFinding(cfg.namespace, "Pod", s.pod, "resource-usage", band.value.1, band.value.0, [])]
      else []
  }

  function UsageFindings(cfg: Config, now: Time, prior: map<string, Observation>, samples: seq<Sample>): seq<Finding> {
    if samples == [] then []
    else
      UsageFindings(cfg, now, prior, Init(samples))
      + UsageFinding(cfg, Last(samples), Sampled(now, prior, Last(samples)).memorySamples)
  }

  /** The loop of checkResourceUsage over the pods that have a memory limit. */
  method CheckResourceUsage(cfg: Config, now: Time, prior: map<string, Observation>, samples: seq<Sample>)
    returns (findings: seq<Finding>, observations: map<string, Observation>)
    ensures findings == UsageFindings(cfg, now, prior, samples)
    ensures observations == MemoryDelta(now, prior, samples)
  {
    findings, observations := [], map[];
    for i := 0 to |samples|
      invariant findings == UsageFindings(cfg, now, prior, samples[..i])
      invariant observations == MemoryDelta(now, prior, samples[..i])
    {
      var s := samples[i];
      assert Init(samples[..i + 1]) == samples[..i] && Last(samples[..i + 1]) == s;
      var key := MemoryKey(s.pod);
      var obs := Observation(0, now, [], ZERO_TIME);
      if key in prior {
        obs := prior[key];
      }
      obs := obs.(memorySamples := AppendMemSample(obs.memorySamples, s.percent, SAMPLE_WINDOW),
        lastResourceSample := now);
      observations := observations[key := obs];
      var band := UsageBand(cfg, s.percent, obs.memorySamples);
      if band.Some? {
        findings := findings
          + [NewFinding(cfg.namespace, "Pod", s.pod, "resource-usage", band.value.1, band.value.0, [])];
      }
    }
    assert samples[..|samples|] == samples;
  }

  // ----- polls -----

  /** What a poll does to the observations: the accepted pods listing and the accepted usage samples, None if
      that check is off, failed or timed out; and the keys that the cap and the size limit evicted. */
  datatype ObsPoll = ObsPoll(now: Time, pods: Option<seq<Pod>>, samples: Option<seq<Sample>>, evicted: set<string>)

  /** The value copy of the snapshot; null entries are skipped. */
  function Prior(observations: map<string, Option<Observation>>): map<string, Observation> {
    map k | k in observations && observations[k].Some? :: observations[k].value
  }

  function PodsDelta(p: ObsPoll): map<string, Observation> {
    if p.pods.Some? then RestartDelta(p.now, p.pods.value) else map[]
  }

  function SamplesDelta(p: ObsPoll, prior: map<string, Observation>): map<string, Observation> {
    if p.samples.Some? then MemoryDelta(p.now, prior, p.samples.value) else map[]
  }

  function AfterMerge(observations: map<string, Option<Observation>>, p: ObsPoll): map<string, Option<Observation>> {
    Merged(Merged(observations, PodsDelta(p)), SamplesDelta(p, Prior(observations)))
  }

  ghost function Observe(cfg: Config, observations: map<string, Option<Observation>>,
                         p: ObsPoll): map<string, Option<Observation>> {
    var merged := AfterMerge(observations, p);
    merged - Stale(cfg, merged, p.now) - p.evicted
  }

  /** The observations after a history of polls from a fresh start. */
  ghost function After(cfg: Config, h: seq<ObsPoll>): map<string, Option<Observation>> {
    if h == [] then map[] else Observe(cfg, After(cfg, Init(h)), Last(h))
  }

  /** The restart total of the last live pod of this name in a listing. */
  function Listed(pods: seq<Pod>, name: string): Option<int> {
    if pods == [] then None
    else if !Last(pods).deleting && Last(pods).name == name then Some(TotalRestarts(Last(pods).restarts))
    else Listed(Init(pods), name)
  }

  /** When a merged pods check listed this live pod last, and its restarts then. */
  function LastListed(h: seq<ObsPoll>, name: string): Option<(Time, int)> {
    if h == [] then None
    else if Last(h).pods.Some? && Listed(Last(h).pods.value, name).Some?
    then Some((Last(h).now, Listed(Last(h).pods.value, name).value))
    else LastListed(Init(h), name)
  }

  lemma {:induction false} RestartDeltaIsListed(now: Time, pods: seq<Pod>, name: string)
    ensures RestartKey(name) in RestartDelta(now, pods) <==> Listed(pods, name).Some?
    ensures Listed(pods, name).Some? ==>
      RestartDelta(now, pods)[RestartKey(name)] == Observation(Listed(pods, name).value, now, [], ZERO_TIME)
  {
    if pods != [] {
      RestartDeltaIsListed(now, Init(pods), name);
      KeysNeverCollide(name, Last(pods).name);
    }
  }

  lemma {:induction false} DeltaKeys(now: Time, prior: map<string, Observation>, pods: seq<Pod>, samples: seq<Sample>,
                                     name: string)
    ensures MemoryKey(name) !in RestartDelta(now, pods)
    ensures RestartKey(name) !in MemoryDelta(now, prior, samples)
    decreases |pods| + |samples|
  {
    if pods != [] {
      DeltaKeys(now, prior, Init(pods), samples, name);
      KeysNeverCollide(Last(pods).name, name);
    } else if samples != [] {
      DeltaKeys(now, prior, pods, Init(samples), name);
      KeysNeverCollide(name, Last(samples).pod);
    }
  }

  /** What a merge leaves under a restart key: the new total if the pod was listed, the old entry otherwise. */
  lemma MergedRestart(observations: map<string, Option<Observation>>, p: ObsPoll, name: string)
    ensures var key := RestartKey(name); var merged := AfterMerge(observations, p);
      if p.pods.Some? && Listed(p.pods.value, name).Some?
      then key in merged && merged[key] == Some(Observation(Listed(p.pods.value, name).value, p.now, [], ZERO_TIME))
      else (key in merged <==> key in observations) && (key in merged ==> merged[key] == observations[key])
  {
    if p.pods.Some? { RestartDeltaIsListed(p.now, p.pods.value, name); }
    if p.samples.Some? { DeltaKeys(p.now, Prior(observations), [], p.samples.value, name); }
  }

  /** A stored restart count is the one of the latest merged listing. */
  lemma {:induction false} StoredIsLastListed(cfg: Config, h: seq<ObsPoll>, name: string)
    ensures var obs := After(cfg, h); var key := RestartKey(name);
      key in obs ==>
        && obs[key].Some?
        && LastListed(h, name) == Some((obs[key].value.lastSeen, obs[key].value.restartCount))
  {
    if h != [] {
      StoredIsLastListed(cfg, Init(h), name);
      MergedRestart(After(cfg, Init(h)), Last(h), name);
    }
  }

  /** The findings name this pod as restarting. */
  predicate Carries(findings: seq<Finding>, name: string) {
    exists i :: 0 <= i < |findings| && findings[i].check == "restart-rate"
                && findings[i].reason == "restarts-increased" && findings[i].name == name
  }

  predicate LivePod(pods: seq<Pod>, j: int, name: string) {
    0 <= j < |pods| && !pods[j].deleting && pods[j].name == name
  }

  lemma {:induction false} CarriedIfIncreased(cfg: Config, now: Time, prior: map<string, Observation>, pods: seq<Pod>,
                                              name: string)
    ensures Carries(RestartFindings(cfg, now, prior, pods), name)
            <==> exists j :: LivePod(pods, j, name) && Increased(cfg, now, prior, pods[j])
  {
    if pods != [] {
      var init, pod := Init(pods), Last(pods);
      CarriedIfIncreased(cfg, now, prior, init, name);
      assert forall j :: 0 <= j < |init| ==> init[j] == pods[j];
      var before, findings := RestartFindings(cfg, now, prior, init), RestartFindings(cfg, now, prior, pods);
      if Carries(before, name) {
        var i :| 0 <= i < |before| && before[i].check == "restart-rate"
                 && before[i].reason == "restarts-increased" && before[i].name == name;
        assert findings[i] == before[i];
        var j :| LivePod(init, j, name) && Increased(cfg, now, prior, init[j]);
        assert LivePod(pods, j, name);
      } else if LivePod(pods, |init|, name) && Increased(cfg, now, prior, pod) {
        assert findings[|before|] == RestartFinding(cfg, pod);
      } else {
        assert forall i :: 0 <= i < |before| ==> findings[i] == before[i];
        assert forall j :: LivePod(pods, j, name) && j < |init| ==> LivePod(init, j, name);
      }
    }
  }

  /** In the 32-bit arithmetic of the source, the count rose by the threshold since the latest merged pods check
      that listed the pod, and that check lies at most RestartWindow back. */
  predicate RisenSince(cfg: Config, h: seq<ObsPoll>, now: Time, pod: Pod) {
    && LastListed(h, pod.name).Some?
    && now - LastListed(h, pod.name).value.0 <= cfg.restartWindow
    && Wrap32(TotalRestarts(pod.restarts) - LastListed(h, pod.name).value.1) >= cfg.restartWarningCount
  }

  /** While the difference fits into 32 bits, that is the plain difference. */
  lemma RiseIsTheDifference(cfg: Config, h: seq<ObsPoll>, now: Time, pod: Pod)
    requires LastListed(h, pod.name).Some?
    requires var rise := TotalRestarts(pod.restarts) - LastListed(h, pod.name).value.1; -TWO_31 <= rise < TWO_31
    ensures RisenSince(cfg, h, now, pod) <==>
      && now - LastListed(h, pod.name).value.0 <= cfg.restartWindow
      && TotalRestarts(pod.restarts) - LastListed(h, pod.name).value.1 >= cfg.restartWarningCount
  {
  }

  /** The pods check reports a pod as restarting only if its count rose so. */
  lemma RestartsReportedOnlyIfRisen(cfg: Config, h: seq<ObsPoll>, now: Time, pods: seq<Pod>, name: string)
    requires Carries(RestartFindings(cfg, now, Prior(After(cfg, h)), pods), name)
    ensures exists j :: LivePod(pods, j, name) && RisenSince(cfg, h, now, pods[j])
  {
    CarriedIfIncreased(cfg, now, Prior(After(cfg, h)), pods, name);
    StoredIsLastListed(cfg, h, name);
    var j :| LivePod(pods, j, name) && Increased(cfg, now, Prior(After(cfg, h)), pods[j]);
    assert RisenSince(cfg, h, now, pods[j]);
  }

  /** Neither cap nor size evicted the pod's restart count, the clock went forward, and observations are kept
      at least for the window. */
  ghost predicate Undisturbed(cfg: Config, h: seq<ObsPoll>, now: Time, name: string) {
    && (cfg.observationRetention <= 0 || cfg.observationRetention >= cfg.restartWindow)
    && (forall i :: 0 <= i < |h| ==> RestartKey(name) !in h[i].evicted && h[i].now <= now)
    && (forall i, j :: 0 <= i < j < |h| ==> h[i].now <= h[j].now)
  }

  lemma {:induction false} RecentIsStored(cfg: Config, h: seq<ObsPoll>, now: Time, name: string)
    requires Undisturbed(cfg, h, now, name)
    requires LastListed(h, name).Some? && now - LastListed(h, name).value.0 <= cfg.restartWindow
    ensures RestartKey(name) in After(cfg, h)
  {
    if h != [] {
      var init, p := Init(h), Last(h);
      assert p == h[|h| - 1] && forall i :: 0 <= i < |init| ==> init[i] == h[i];
      MergedRestart(After(cfg, init), p, name);
      if !(p.pods.Some? && Listed(p.pods.value, name).Some?) {
        RecentIsStored(cfg, init, now, name);
        StoredIsLastListed(cfg, init, name);
      }
    }
  }

  /** Undisturbed, it reports the pod exactly when the count rose so. */
  lemma RestartsReportedExactly(cfg: Config, h: seq<ObsPoll>, now: Time, pods: seq<Pod>, name: string)
    requires Undisturbed(cfg, h, now, name)
    ensures Carries(RestartFindings(cfg, now, Prior(After(cfg, h)), pods), name)
            <==> exists j :: LivePod(pods, j, name) && RisenSince(cfg, h, now, pods[j])
  {
    var prior := Prior(After(cfg, h));
    hide Increased, RisenSince, Carries;
    CarriedIfIncreased(cfg, now, prior, pods, name);
    forall j | LivePod(pods, j, name) ensures Increased(cfg, now, prior, pods[j])
      <==> RisenSince(cfg, h, now, pods[j]) {
      IncreasedExactly(cfg, h, now, pods[j]);
    }
  }

  lemma IncreasedExactly(cfg: Config, h: seq<ObsPoll>, now: Time, pod: Pod)
    requires Undisturbed(cfg, h, now, pod.name)
    ensures Increased(cfg, now, Prior(After(cfg, h)), pod) <==> RisenSince(cfg, h, now, pod)
  {
    StoredIsLastListed(cfg, h, pod.name);
    if LastListed(h, pod.name).Some? && now - LastListed(h, pod.name).value.0 <= cfg.restartWindow {
      RecentIsStored(cfg, h, now, pod.name);
    }
  }

  // ----- the memory window over a history -----

  /** The last sample of a pod in one list. */
  function SampleOf(samples: seq<Sample>, name: string): Option<int> {
    if samples == [] then None
    else if Last(samples).pod == name then Some(Last(samples).percent)
    else SampleOf(Init(samples), name)
  }

  /** All samples merged for the pod since its entry was created, and when that was. */
  ghost function SinceCreated(cfg: Config, h: seq<ObsPoll>, name: string): (seq<int>, Time) {
    if h == [] then ([], ZERO_TIME)
    else
      var (samples, created) := SinceCreated(cfg, Init(h), name);
      var fresh' := MemoryKey(name) !in After(cfg, Init(h));
      if Last(h).samples.Some? && SampleOf(Last(h).samples.value, name).Some? then
        var percent := SampleOf(Last(h).samples.value, name).value;
        if fresh' then ([percent], Last(h).now) else (samples + [percent], created)
      else (samples, created)
  }

  lemma {:induction false} MemoryDeltaIsSampled(now: Time, prior: map<string, Observation>, samples: seq<Sample>,
                                                name: string)
    ensures MemoryKey(name) in MemoryDelta(now, prior, samples) <==> SampleOf(samples, name).Some?
    ensures SampleOf(samples, name).Some? ==>
      MemoryDelta(now, prior, samples)[MemoryKey(name)]
        == Sampled(now, prior, Sample(name, SampleOf(samples, name).value))
  {
    if samples != [] {
      MemoryDeltaIsSampled(now, prior, Init(samples), name);
      KeysNeverCollide(name, Last(samples).pod);
    }
  }

  lemma MergedMemory(observations: map<string, Option<Observation>>, p: ObsPoll, name: string)
    ensures var key := MemoryKey(name); var merged := AfterMerge(observations, p);
      if p.samples.Some? && SampleOf(p.samples.value, name).Some?
      then key in merged
           && merged[key] == Some(Sampled(p.now, Prior(observations),
             Sample(name, SampleOf(p.samples.value, name).value)))
      else (key in merged <==> key in observations) && (key in merged ==> merged[key] == observations[key])
  {
    if p.samples.Some? { MemoryDeltaIsSampled(p.now, Prior(observations), p.samples.value, name); }
    if p.pods.Some? { DeltaKeys(p.now, Prior(observations), p.pods.value, [], name); }
  }

  /** The stored window holds the last min(n, 5) of the n samples merged since the entry was created, and
      its LastSeen is still the instant of creation, whatever was evicted in between. */
  lemma {:induction false} WindowIsLastFive(cfg: Config, h: seq<ObsPoll>, name: string)
    ensures var obs := After(cfg, h); var key := MemoryKey(name);
      key in obs ==>
        && obs[key].Some?
        && obs[key].value.memorySamples == LastN(SinceCreated(cfg, h, name).0, SAMPLE_WINDOW)
        && obs[key].value.lastSeen == SinceCreated(cfg, h, name).1
  {
    if h != [] {
      WindowIsLastFive(cfg, Init(h), name);
      MergedMemory(After(cfg, Init(h)), Last(h), name);
      if Last(h).samples.Some? && SampleOf(Last(h).samples.value, name).Some? {
        WindowStep(SinceCreated(cfg, Init(h), name).0, SampleOf(Last(h).samples.value, name).value, SAMPLE_WINDOW);
      }
    }
  }

  /** The samples merged for the pod since its entry was created, if it has one. */
  ghost function Known(cfg: Config, h: seq<ObsPoll>, name: string): seq<int> {
    if MemoryKey(name) in After(cfg, h) then SinceCreated(cfg, h, name).0 else []
  }

  /** What the usage check should find, told by the history alone. */
  ghost function FindingsOfHistory(cfg: Config, h: seq<ObsPoll>, samples: seq<Sample>): seq<Finding> {
    if samples == [] then []
    else
      var s := Last(samples);
      FindingsOfHistory(cfg, h, Init(samples))
        + UsageFinding(cfg, s, LastN(Known(cfg, h, s.pod) + [s.percent], SAMPLE_WINDOW))
  }

  /** The next usage check decides on the true recent samples: the last five including the new one. */
  lemma {:induction false} UsageIsDecidedFromHistory(cfg: Config, h: seq<ObsPoll>, now: Time, samples: seq<Sample>)
    ensures UsageFindings(cfg, now, Prior(After(cfg, h)), samples) == FindingsOfHistory(cfg, h, samples)
  {
    if samples != [] {
      var s := Last(samples);
      UsageIsDecidedFromHistory(cfg, h, now, Init(samples));
      WindowIsLastFive(cfg, h, s.pod);
      WindowStep(SinceCreated(cfg, h, s.pod).0, s.percent, SAMPLE_WINDOW);
    }
  }

  /** The findings say that the pod's memory is trending. */
  predicate SaysTrending(findings: seq<Finding>, name: string) {
    exists i :: 0 <= i < |findings| && findings[i].name == name
                && (findings[i].reason == "memory-trending-to-limit" || findings[i].reason == "memory-trending")
  }

  /** Of at least three recent samples the last lies at least 10 above the first, at 50 percent or at the
      warning mark, and below the critical mark. */
  ghost predicate TrendsInHistory(cfg: Config, h: seq<ObsPoll>, samples: seq<Sample>, j: int, name: string) {
    && 0 <= j < |samples| && samples[j].pod == name
    && var percent := samples[j].percent;
       var w := LastN(Known(cfg, h, name) + [percent], SAMPLE_WINDOW);
       && |w| >= 3 && percent - w[0] >= 10
       && percent < cfg.memoryCriticalPercent && (percent >= 50 || percent >= cfg.memoryWarningPercent)
  }

  /** The usage check says that a pod is trending exactly when its merged history and the new sample do. */
  lemma TrendIsDecidedFromHistory(cfg: Config, h: seq<ObsPoll>, now: Time, samples: seq<Sample>, name: string)
    ensures SaysTrending(UsageFindings(cfg, now, Prior(After(cfg, h)), samples), name)
            <==> exists j :: TrendsInHistory(cfg, h, samples, j, name)
  {
    UsageIsDecidedFromHistory(cfg, h, now, samples);
    TrendOfFindings(cfg, h, samples, name);
  }

  lemma {:induction false} TrendOfFindings(cfg: Config, h: seq<ObsPoll>, samples: seq<Sample>, name: string)
    ensures SaysTrending(FindingsOfHistory(cfg, h, samples), name)
            <==> exists j :: TrendsInHistory(cfg, h, samples, j, name)
  {
    if samples != [] {
      var init, s := Init(samples), Last(samples);
      var w := LastN(Known(cfg, h, s.pod) + [s.percent], SAMPLE_WINDOW);
      TrendOfFindings(cfg, h, init, name);
      SaysTrendingConcat(FindingsOfHistory(cfg, h, init), UsageFinding(cfg, s, w), name);
      LastTrends(cfg, h, samples, name);
      hide SaysTrending, TrendsInHistory;
      assert forall j :: TrendsInHistory(cfg, h, init, j, name) ==> TrendsInHistory(cfg, h, samples, j, name);
    }
  }

  /** The last sample's share in the trend. */
  lemma LastTrends(cfg: Config, h: seq<ObsPoll>, samples: seq<Sample>, name: string)
    requires samples != []
    ensures var s := Last(samples); var w := LastN(Known(cfg, h, s.pod) + [s.percent], SAMPLE_WINDOW);
      SaysTrending(UsageFinding(cfg, s, w), name) <==> TrendsInHistory(cfg, h, samples, |samples| - 1, name)
    ensures forall j :: TrendsInHistory(cfg, h, samples, j, name) <==>
      TrendsInHistory(cfg, h, Init(samples), j, name)
        || (j == |samples| - 1 && TrendsInHistory(cfg, h, samples, j, name))
  {
    var s := Last(samples);
    var w := LastN(Known(cfg, h, s.pod) + [s.percent], SAMPLE_WINDOW);
    OwnTrend(cfg, s, w, name);
    assert w[|w| - 1] == s.percent;
    assert forall j :: 0 <= j < |samples| - 1 ==> Init(samples)[j] == samples[j];
  }

  lemma SaysTrendingConcat(a: seq<Finding>, b: seq<Finding>, name: string)
    ensures SaysTrending(a + b, name) <==> SaysTrending(a, name) || SaysTrending(b, name)
  {
    var all := a + b;
    assert forall i :: 0 <= i < |a| ==> all[i] == a[i];
    assert forall i :: 0 <= i < |b| ==> all[|a| + i] == b[i];
    if SaysTrending(b, name) {
      var i :| 0 <= i < |b| && b[i].name == name
        && (b[i].reason == "memory-trending-to-limit" || b[i].reason == "memory-trending");
      assert all[|a| + i] == b[i];
    }
    if SaysTrending(all, name) && !SaysTrending(a, name) {
      var i :| 0 <= i < |all| && all[i].name == name
               && (all[i].reason == "memory-trending-to-limit" || all[i].reason == "memory-trending");
      assert all[i] == b[i - |a|];
    }
  }

  lemma OwnTrend(cfg: Config, s: Sample, w: seq<int>, name: string)
    ensures SaysTrending(UsageFinding(cfg, s, w), name)
            <==> s.pod == name && MemoryTrending(w) && s.percent < cfg.memoryCriticalPercent
                 && (s.percent >= 50 || s.percent >= cfg.memoryWarningPercent)
  {
    var findings := UsageFinding(cfg, s, w);
    assert "memory-critical" != "memory-trending" && "memory-high" != "memory-trending";
    if findings != [] {
      assert findings[0].name == s.pod;
    }
  }

  // ----- which findings the usage check makes -----

  /** At least three samples, the last at least 10 above the first. */
  predicate Rises(w: seq<int>) {
    |w| >= 3 && w[|w| - 1] - w[0] >= 10
  }

  /** The usage range of each reason and score: critical from the critical mark on; below it, from the warning
      mark on, high or, with a trend, on the way to the limit; below both marks, a trend from 50 percent on. */
  predicate InBand(cfg: Config, percent: int, w: seq<int>, reason: string, score: int) {
    || (reason == "memory-critical" && score == 80 && percent >= cfg.memoryCriticalPercent)
    || (reason == "memory-trending-to-limit" && score == 72
        && cfg.memoryWarningPercent <= percent < cfg.memoryCriticalPercent && Rises(w))
    || (reason == "memory-high" && score == 62
        && cfg.memoryWarningPercent <= percent < cfg.memoryCriticalPercent && !Rises(w))
    || (reason == "memory-trending" && score == 45
        && 50 <= percent < cfg.memoryWarningPercent && percent < cfg.memoryCriticalPercent && Rises(w))
  }

  predicate Says(findings: seq<Finding>, name: string, reason: string, score: int) {
    exists i :: 0 <= i < |findings| && Names(findings[i], name, reason, score)
  }

  predicate Names(f: Finding, name: string, reason: string, score: int) {
    f.kind == "Pod" && f.name == name && f.check == "resource-usage" && f.reason == reason && f.score == score
  }

  /** One sample makes one finding if it lies in a range, and none if it lies in none. */
  lemma OwnBand(cfg: Config, s: Sample, w: seq<int>, name: string, reason: string, score: int)
    ensures var own := UsageFinding(cfg, s, w);
      && |own| <= 1
      && (Says(own, name, reason, score) <==> s.pod == name && InBand(cfg, s.percent, w, reason, score))
  {
    var own := UsageFinding(cfg, s, w);
    DistinctReasons();
    if own != [] {
      assert own[0].name == s.pod && own[0].kind == "Pod" && own[0].check == "resource-usage";
    }
  }

  lemma DistinctReasons()
    ensures "memory-critical" != "memory-trending-to-limit" && "memory-critical" != "memory-high"
    ensures "memory-critical" != "memory-trending" && "memory-trending-to-limit" != "memory-high"
    ensures "memory-trending-to-limit" != "memory-trending" && "memory-high" != "memory-trending"
  {
    assert |"memory-critical"| == 15 && |"memory-trending-to-limit"| == 24 && |"memory-high"| == 11;
    assert "memory-critical"[7] != "memory-trending"[7];
  }

  lemma NoBandNoFinding(cfg: Config, s: Sample, w: seq<int>)
    ensures UsageFinding(cfg, s, w) == [] <==> !exists reason, score :: InBand(cfg, s.percent, w, reason, score)
  {
    if s.percent >= cfg.memoryCriticalPercent {
      assert InBand(cfg, s.percent, w, "memory-critical", 80);
    } else if s.percent >= cfg.memoryWarningPercent && Rises(w) {
      assert InBand(cfg, s.percent, w, "memory-trending-to-limit", 72);
    } else if s.percent >= cfg.memoryWarningPercent {
      assert InBand(cfg, s.percent, w, "memory-high", 62);
    } else if s.percent >= 50 && Rises(w) {
      assert InBand(cfg, s.percent, w, "memory-trending", 45);
    }
  }

  /** Sample j is of this pod and in this range, by the merged history. */
  ghost predicate BandInHistory(cfg: Config, h: seq<ObsPoll>, samples: seq<Sample>, j: int, name: string,
                                reason: string, score: int) {
    && 0 <= j < |samples| && samples[j].pod == name
    && var all := Known(cfg, h, name) + [samples[j].percent];
       InBand(cfg, samples[j].percent, LastN(all, 5), reason, score)
  }

  lemma SaysConcat(a: seq<Finding>, b: seq<Finding>, name: string, reason: string, score: int)
    ensures Says(a + b, name, reason, score) <==> Says(a, name, reason, score) || Says(b, name, reason, score)
  {
    hide Names;
    var all := a + b;
    assert forall i :: 0 <= i < |a| ==> all[i] == a[i];
    assert forall i :: 0 <= i < |b| ==> all[|a| + i] == b[i];
    if Says(b, name, reason, score) {
      var i :| 0 <= i < |b| && Names(b[i], name, reason, score);
      assert Names(all[|a| + i], name, reason, score);
    }
    if Says(all, name, reason, score) && !Says(a, name, reason, score) {
      var i :| 0 <= i < |all| && Names(all[i], name, reason, score);
      assert all[i] == b[i - |a|];
    }
  }

  lemma {:induction false} BandsOfFindings(cfg: Config, h: seq<ObsPoll>, samples: seq<Sample>, name: string,
                                           reason: string, score: int)
    ensures Says(FindingsOfHistory(cfg, h, samples), name, reason, score)
            <==> exists j :: BandInHistory(cfg, h, samples, j, name, reason, score)
  {
    if samples != [] {
      var init, s := Init(samples), Last(samples);
      var w := LastN(Known(cfg, h, s.pod) + [s.percent], SAMPLE_WINDOW);
      BandsOfFindings(cfg, h, init, name, reason, score);
      SaysConcat(FindingsOfHistory(cfg, h, init), UsageFinding(cfg, s, w), name, reason, score);
      OwnBand(cfg, s, w, name, reason, score);
      LastBand(cfg, h, samples, name, reason, score);
      hide Says, BandInHistory;
      assert forall j :: BandInHistory(cfg, h, init, j, name, reason, score) ==>
        BandInHistory(cfg, h, samples, j, name, reason, score);
    }
  }

  /** The last sample's share. */
  lemma LastBand(cfg: Config, h: seq<ObsPoll>, samples: seq<Sample>, name: string, reason: string, score: int)
    requires samples != []
    ensures var s, n := Last(samples), |samples| - 1;
      BandInHistory(cfg, h, samples, n, name, reason, score) <==>
        s.pod == name && InBand(cfg, s.percent, LastN(Known(cfg, h, s.pod) + [s.percent], SAMPLE_WINDOW), reason, score)
    ensures forall j :: BandInHistory(cfg, h, samples, j, name, reason, score) <==>
      BandInHistory(cfg, h, Init(samples), j, name, reason, score)
      || (j == |samples| - 1 && BandInHistory(cfg, h, samples, j, name, reason, score))
  {
    assert forall j :: 0 <= j < |samples| - 1 ==> Init(samples)[j] == samples[j];
  }

  /** The usage check makes a finding with some reason and score exactly for the samples in that range, told by
      the marks and the merged history alone; so no other reason and no other score is ever reported. */
  lemma UsageBandsExactly(cfg: Config, h: seq<ObsPoll>, now: Time, samples: seq<Sample>, name: string,
                          reason: string, score: int)
    ensures Says(UsageFindings(cfg, now, Prior(After(cfg, h)), samples), name, reason, score)
            <==> exists j :: BandInHistory(cfg, h, samples, j, name, reason, score)
  {
    UsageIsDecidedFromHistory(cfg, h, now, samples);
    BandsOfFindings(cfg, h, samples, name, reason, score);
  }

  // ----- small facts that the definitions rest on -----

  function Sum(s: seq<int>): int {
    if s == [] then 0 else Sum(s[..|s| - 1]) + s[|s| - 1]
  }

  /** Adding up container by container with wrap-around is wrapping the sum; while the sum fits, it is the sum. */
  lemma {:induction false} TotalIsTheSum(restarts: seq<int>)
    ensures -0x8000_0000 <= TotalRestarts(restarts) < 0x8000_0000
    ensures (Sum(restarts) - TotalRestarts(restarts)) % 0x1_0000_0000 == 0
    ensures -0x8000_0000 <= Sum(restarts) < 0x8000_0000 ==> TotalRestarts(restarts) == Sum(restarts)
  {
    if restarts != [] {
      TotalIsTheSum(Init(restarts));
    }
  }

  /** The window is the end of all the samples, of length 5 or of all of them. */
  lemma WindowIsTheEnd(all: seq<int>)
    ensures var w := LastN(all, SAMPLE_WINDOW);
      |w| == (if |all| < 5 then |all| else 5) && all == all[..|all| - |w|] + w
  {
  }

  /** What is reported of a restarting pod. */
  lemma RestartFindingSays(cfg: Config, pod: Pod)
    ensures var f := RestartFinding(cfg, pod);
      && f.namespace == cfg.namespace && f.kind == "Pod" && f.name == pod.name && f.check == "restart-rate"
      && f.reason == "restarts-increased" && f.score == 65 && f.classification == Degraded && f.severity == High
  {
  }

  /** When the pod was sampled last by a merged usage check. */
  function LastSampled(h: seq<ObsPoll>, name: string): Time {
    if h == [] then ZERO_TIME
    else if Last(h).samples.Some? && SampleOf(Last(h).samples.value, name).Some? then Last(h).now
    else LastSampled(Init(h), name)
  }

  /** A memory observation counts no restarts and remembers the instant of its last sample. */
  lemma {:induction false} MemoryRemembersLastSample(cfg: Config, h: seq<ObsPoll>, name: string)
    ensures var obs := After(cfg, h); var key := MemoryKey(name);
      key in obs ==>
        obs[key].Some? && obs[key].value.lastResourceSample == LastSampled(h, name) && obs[key].value.restartCount == 0
  {
    if h != [] {
      MemoryRemembersLastSample(cfg, Init(h), name);
      MergedMemory(After(cfg, Init(h)), Last(h), name);
    }
  }

  /** The keys spelled out. */
  lemma KeysSpelledOut()
    ensures RestartKey("web-0") == "pod/web-0/restarts" && MemoryKey("web-0") == "pod/web-0/memory"
  {
  }
}
