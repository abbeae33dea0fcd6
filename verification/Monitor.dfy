/** monitor.go: the methods that change the monitor, each proved to take steps of the protocol. */
module Monitors {
  import opened Base
  import opened Findings
  import opened States
  import opened Eviction
  import opened Suppression
  import opened Protocol
  import opened Store
  import opened Durability
  import opened Results
  import Listing

  /** The publisher. An error says nothing about whether the message was delivered. */
  class Broker {
    ghost var log: seq<Attempt>

    constructor ()
      ensures log == []
    {
      log := [];
    }

    method PublishFinding(f: Finding) returns (ok: bool, ghost outcome: Outcome)
      modifies this
      ensures ok <==> outcome == Acked
      ensures log == old(log) + [Attempt(f, outcome)]
    {
      var o: Outcome := *;
      log := log + [Attempt(f, o)];
      return o == Acked, o;
    }
  }

  class Monitor {
    const cfg: Config
    /** Whether the state in memory came from a successful load. */
    ghost const adopted: bool
    const broker: Broker
    const store: StateStore
    const version: int
    const namespace: string
    /** m.state.Findings and m.state.Observations. */
    var findings: map<Id, FindingState>
    var observations: map<string, Option<Observation>>
    var suppressions: set<string>
    var dirty: bool
    var lastWrite: Time
    ghost var saved: MonitorState
    ghost var writes: seq<Write>

    constructor (cfg: Config, broker: Broker, store: StateStore, state: MonitorState, ghost adopted: bool)
      ensures this.cfg == cfg && this.broker == broker && this.store == store && State() == state
      ensures this.adopted == adopted && !dirty
      ensures broker.log == [] ==> Shows(Start(state))
    {
      this.cfg, this.broker, this.store, this.adopted := cfg, broker, store, adopted;
      version, namespace, findings, observations := state.version, state.namespace, state.findings, state.observations;
      suppressions, dirty, lastWrite := {}, false, ZERO_TIME;
      saved, writes := state, [];
    }

    function State(): MonitorState
      reads this
    {
      MonitorState(version, namespace, findings, observations)
    }

    /** The protocol machine that these fields stand for; its last three parts are locals of Poll. */
    ghost predicate Shows(m: Machine)
      reads this, broker
    {
      && m.state == State() && m.log == broker.log && m.dirty == dirty
      && m.lastWrite == lastWrite && m.saved == saved && m.writes == writes
    }

    /** The first half of an iteration of collectFindings: the message to publish, and whether to. */
    method PrepareMessage(f: Finding, entry: FindingState, now: Time)
      returns (finding: Finding, shouldPublish: bool, nextCooldown: Option<Time>)
      requires entry == EntryFor(findings, f, now)
      ensures finding == Message(cfg, entry, f, now)
      ensures shouldPublish == MustPublish(cfg, findings, f, now)
      ensures nextCooldown == if Triages(cfg, entry, f, now) then Some(now + CooldownFor(cfg, f.classification))
        else None
    {
      finding := f.(lastSeen := now, status := Ongoing, firstSeen := entry.firstSeen);
      shouldPublish := f.id !in findings || entry.status == Resolved || entry.lastPublished.None?
        || entry.lastPublishFailed.Some? || f.score > entry.score || f.classification != entry.classification;
      nextCooldown := None;
      if cfg.triageEnabled && f.score >= cfg.minScore {
        if entry.cooldownUntil.None? || now > entry.cooldownUntil.value {
          var cooldown := cfg.cooldown;
          if f.classification == IncidentLikely && cfg.cooldownIncident > 0 {
            cooldown := cfg.cooldownIncident;
          }
          nextCooldown := Some(now + cooldown);
          finding := finding.(aiTriageRequired := true, cooldownUntil := nextCooldown);
          shouldPublish := true;
        } else {
          finding := finding.(cooldownUntil := entry.cooldownUntil);
        }
      }
    }

    /** One iteration of collectFindings for a finding that is not suppressed. */
    method ReportFinding(f: Finding, now: Time) returns (ghost outcome: Outcome)
      modifies this`findings, this`dirty, broker
      ensures findings == old(findings)[f.id := ReportedEntry(cfg, old(findings), f, now, outcome)]
      ensures broker.log == if MustPublish(cfg, old(findings), f, now)
        then old(broker.log) + [Attempt(Message(cfg, EntryFor(old(findings), f, now), f, now), outcome)]
        else old(broker.log)
      ensures dirty
    {
      hide MustPublish, Message, Triages;
      var entry: FindingState;
      if f.id in findings {
        entry := findings[f.id];
      } else {
        entry := FindingState(f.kind, f.name, f.check, f.reason, now, ZERO_TIME, None, None, None, None,
                              f.score, f.classification, Ongoing);
      }
      var finding, shouldPublish, nextCooldown := PrepareMessage(f, entry, now);
      entry := entry.(kind := f.kind, name := f.name, check := f.check, reason := f.reason, lastSeen := now,
                      score := f.score, classification := f.classification, status := Ongoing);
      dirty := true;
      outcome := Acked;
      if shouldPublish {
        var ok;
        ok, outcome := broker.PublishFinding(finding);
        if ok {
          entry := entry.(lastPublished := Some(now), lastPublishFailed := None);
          if nextCooldown.Some? {
            entry := entry.(lastAIDispatch := Some(now), cooldownUntil := nextCooldown);
          }
        } else {
          entry := entry.(lastPublishFailed := Some(now));
        }
      }
      findings := findings[f.id := entry];
    }

    /** One iteration of collectFindings. */
    method CollectFinding(f: Finding, now: Time, active: set<Id>, ghost m: Machine)
      returns (active': set<Id>, ghost steps: seq<Step>)
      requires Shows(m) && m.clock == now && m.active == active && WellMade(cfg.namespace, f)
      modifies this`findings, this`dirty, broker
      ensures EraseAll(steps) == if IsSuppressed(suppressions, f) then [] else [Report(f, Acked)]
      ensures Valid(cfg, m, steps) && Shows(Run(cfg, m, steps))
      ensures Run(cfg, m, steps).active == active' && Run(cfg, m, steps).clock == now
        && Run(cfg, m, steps).complete == m.complete
      ensures old(dirty) ==> dirty
    {
      if IsSuppressed(suppressions, f) {
        return active, [];
      }
      ghost var outcome := ReportFinding(f, now);
      active', steps := active + {f.id}, [Report(f, outcome)];
      RunSingle(cfg, m, Report(f, outcome));
    }

    method CollectFindings(batch: seq<Finding>, now: Time, active: set<Id>, ghost m: Machine)
      returns (active': set<Id>, ghost steps: seq<Step>)
      requires Shows(m) && m.clock == now && m.active == active
      requires forall i :: 0 <= i < |batch| ==> WellMade(cfg.namespace, batch[i])
      modifies this`findings, this`dirty, broker
      ensures EraseAll(steps) == Prompts(suppressions, batch)
      ensures Valid(cfg, m, steps) && Shows(Run(cfg, m, steps))
      ensures Run(cfg, m, steps).active == active' && Run(cfg, m, steps).clock == now
        && Run(cfg, m, steps).complete == m.complete
      ensures old(dirty) ==> dirty
    {
      hide Apply, Run, Valid, Shows;
      active', steps := active, [];
      RunsNothing(cfg, m);
      for i := 0 to |batch|
        invariant EraseAll(steps) == Prompts(suppressions, batch[..i])
        invariant Valid(cfg, m, steps) && Shows(Run(cfg, m, steps))
        invariant Run(cfg, m, steps).active == active' && Run(cfg, m, steps).clock == now
        invariant Run(cfg, m, steps).complete == m.complete && (old(dirty) ==> dirty)
      {
        ghost var more;
        active', more := CollectFinding(batch[i], now, active', Run(cfg, m, steps));
        PromptsGrow(suppressions, batch[..i + 1], batch[..i], batch[i], steps, more);
        RunConcat(cfg, m, steps, more);
        steps := steps + more;
      }
      assert batch[..|batch|] == batch;
    }

    static lemma EraseConcat(a: seq<Step>, b: seq<Step>)
      ensures EraseAll(a + b) == EraseAll(a) + EraseAll(b)
    {
    }

    static lemma PromptsGrow(suppressions: set<string>, all: seq<Finding>, init: seq<Finding>, f: Finding,
                             steps: seq<Step>, more: seq<Step>)
      requires all == init + [f]
      requires EraseAll(steps) == Prompts(suppressions, init)
      requires EraseAll(more) == if IsSuppressed(suppressions, f) then [] else [Report(f, Acked)]
      ensures EraseAll(steps + more) == Prompts(suppressions, all)
    {
      EraseConcat(steps, more);
      assert Init(all) == init && Last(all) == f;
    }

    /** The merge of applyResult: each delta is stored under its key and marks the state dirty. */
    method MergeObservations(delta: map<string, Observation>)
      modifies this`observations, this`dirty
      ensures observations == Merged(old(observations), delta)
      ensures dirty == (old(dirty) || delta != map[])
    {
      ghost var start, marked := observations, dirty;
      var left := delta;
      while left != map[]
        invariant Merged(observations, left) == Merged(start, delta)
        invariant dirty == (marked || left != delta)
        decreases left.Keys
      {
        var key :| key in left;
        MergeOne(observations, left, key);
        observations := observations[key := Some(left[key])];
        dirty := true;
        left := left - {key};
        assert key !in left;
      }
      assert Merged(observations, map[]) == observations;
    }

    static lemma MergeOne(observations: map<string, Option<Observation>>, left: map<string, Observation>, key: string)
      requires key in left
      ensures Merged(observations[key := Some(left[key])], left - {key}) == Merged(observations, left)
    {
    }

    /** applyResult, with the accumulation of `complete` that precedes it in Poll. */
    method ApplyResult(r: CheckResult, now: Time, active: set<Id>, ghost m: Machine)
      returns (active': set<Id>, ghost steps: seq<Step>)
      requires Shows(m) && m.clock == now && m.active == active
      requires forall i :: 0 <= i < |r.findings| ==> WellMade(cfg.namespace, r.findings[i])
      modifies this`findings, this`observations, this`dirty, broker
      ensures EraseAll(steps) == [Accept(r.observations, r.complete)] + Prompts(suppressions, r.findings)
      ensures Valid(cfg, m, steps) && Shows(Run(cfg, m, steps))
      ensures Run(cfg, m, steps).active == active' && Run(cfg, m, steps).clock == now
      ensures Run(cfg, m, steps).complete == (m.complete && r.complete) && (old(dirty) ==> dirty)
      ensures "" !in old(observations) && "" !in r.observations ==> "" !in observations
    {
      hide Run, Valid, EraseAll;
      MergeObservations(r.observations);
      ghost var accept := Accept(r.observations, r.complete);
      ghost var rest;
      active', rest := CollectFindings(r.findings, now, active, Apply(cfg, m, accept));
      RunCons(cfg, m, accept, rest);
      steps := [accept] + rest;
      EraseConcat([accept], rest);
      assert EraseAll([accept]) == [accept] by { ErasesNothing(accept); }
    }

    static lemma ErasesNothing(accept: Step)
      requires accept.Accept?
      ensures EraseAll([accept]) == [accept]
    {
    }

    /** The body of resolveMissingFindings for an entry that is ongoing and was not reported. */
    method ResolveFinding(id: Id, entry: FindingState, now: Time) returns (ghost outcome: Outcome)
      requires id in findings && findings[id] == entry
      modifies this`findings, this`dirty, broker
      ensures findings == old(findings)[id := ResolvedEntry(entry, now, outcome)] && dirty
      ensures broker.log == old(broker.log) + [Attempt(ResolvedMessage(cfg, id, entry, now), outcome)]
    {
      var resolved := Finding(id, cfg.namespace, entry.kind, entry.name, Low, Healthy, 0, entry.check, entry.reason,
                              Resolved, entry.firstSeen, now,
                              ["deterministic check no longer reports this finding"], "", false, false, None);
      var ok;
      ok, outcome := broker.PublishFinding(resolved);
      if ok {
        findings := findings[id := entry.(status := Resolved, lastSeen := now, score := 0, classification := Healthy,
                                          lastPublished := Some(now), lastPublishFailed := None)];
      } else {
        findings := findings[id := entry.(lastPublishFailed := Some(now))];
      }
      dirty := true;
    }

    method ResolveMissingFindings(now: Time, active: set<Id>, ghost m: Machine) returns (ghost steps: seq<Step>)
      requires Shows(m) && m.clock == now && m.active == active && m.complete
      modifies this`findings, this`dirty, broker
      ensures Valid(cfg, m, steps) && Shows(Run(cfg, m, steps))
      ensures ResolvesEach(steps, Missing(m)) && Run(cfg, m, steps).clock == now
      ensures old(dirty) ==> dirty
    {
      hide ResolvedEntry, ResolvedMessage, Resolving, Covers, Valid, Run, ResolvesEach, Missing;
      steps := [];
      ghost var k, done: set<Id> := m, {};
      var left := findings;
      ResolvingBegins(cfg, m, left);
      while left != map[]
        invariant Resolving(cfg, m, k, steps, left) && Shows(k) && (old(dirty) ==> dirty)
        invariant Covers(steps, left, active, done, Missing(m))
        decreases left.Keys
      {
        var id :| id in left;
        var entry := left[id];
        ResolvingAt(cfg, m, k, steps, left, id);
        CoversOne(steps, left, active, done, Missing(m), id, Acked);
        if entry.status != Ongoing || id in active {
          left := left - {id};
          continue;
        }
        ghost var outcome := ResolveFinding(id, entry, now);
        CoversOne(steps, left, active, done, Missing(m), id, outcome);
        ResolvesOne(cfg, m, k, steps, left, id, outcome);
        k, steps, done := Apply(cfg, k, Resolve(id, outcome)), steps + [Resolve(id, outcome)], done + {id};
        left := left - {id};
      }
      ResolvingEnds(cfg, m, k, steps, active, done);
    }

    static lemma ResolvingBegins(cfg: Config, m: Machine, left: map<Id, FindingState>)
      requires m.complete && left == m.state.findings
      ensures Resolving(cfg, m, m, [], left) && Covers([], left, m.active, {}, Missing(m))
    {
    }

    static lemma ResolvingAt(cfg: Config, m: Machine, k: Machine, steps: seq<Step>, left: map<Id, FindingState>, id: Id)
      requires Resolving(cfg, m, k, steps, left) && id in left
      ensures id in k.state.findings && k.state.findings[id] == left[id]
      ensures Resolving(cfg, m, k, steps, left - {id})
    {
    }

    static lemma ResolvingEnds(cfg: Config, m: Machine, k: Machine, steps: seq<Step>, active: set<Id>, done: set<Id>)
      requires Resolving(cfg, m, k, steps, map[]) && Covers(steps, map[], active, done, Missing(m))
      ensures Valid(cfg, m, steps) && k == Run(cfg, m, steps) && k.clock == m.clock
      ensures ResolvesEach(steps, Missing(m))
    {
    }

    /** Halfway through resolveMissingFindings: the entries not visited yet are as they were. */
    static ghost predicate Resolving(cfg: Config, m: Machine, k: Machine, steps: seq<Step>,
                                     left: map<Id, FindingState>) {
      && Valid(cfg, m, steps) && k == Run(cfg, m, steps)
      && k.clock == m.clock && k.active == m.active && k.complete
      && (forall id :: id in left ==> id in k.state.findings && k.state.findings[id] == left[id])
    }

    /** The missing ids are those resolved so far and the missing ones among the entries not visited yet. */
    static ghost predicate Covers(steps: seq<Step>, left: map<Id, FindingState>, active: set<Id>, done: set<Id>,
                                  missing: set<Id>) {
      ResolvesEach(steps, done) && done !! left.Keys && done + (WithStatus(left, Ongoing) - active) == missing
    }

    static lemma ResolvesOne(cfg: Config, m: Machine, k: Machine, steps: seq<Step>,
                             left: map<Id, FindingState>, id: Id, o: Outcome)
      requires Resolving(cfg, m, k, steps, left)
      requires id in left && left[id].status == Ongoing && id !in m.active
      ensures Resolving(cfg, m, Apply(cfg, k, Resolve(id, o)), steps + [Resolve(id, o)], left - {id})
    {
      RunOne(cfg, m, steps, Resolve(id, o));
    }

    static lemma CoversOne(steps: seq<Step>, left: map<Id, FindingState>, active: set<Id>, done: set<Id>,
                           missing: set<Id>, id: Id, o: Outcome)
      requires Covers(steps, left, active, done, missing)
      requires id in left
      ensures if left[id].status == Ongoing && id !in active
              then Covers(steps + [Resolve(id, o)], left - {id}, active, done + {id}, missing)
              else Covers(steps, left - {id}, active, done, missing)
    {
      MissingOne(left, active, id);
      ResolvesGrow(steps, done, id, o);
    }

    static lemma MissingOne(left: map<Id, FindingState>, active: set<Id>, id: Id)
      requires id in left
      ensures WithStatus(left, Ongoing) - active
           == (WithStatus(left - {id}, Ongoing) - active)
             + (if left[id].status == Ongoing && id !in active then {id} else {})
    {
    }

    static lemma ResolvesGrow(steps: seq<Step>, ids: set<Id>, id: Id, o: Outcome)
      requires ResolvesEach(steps, ids) && id !in ids
      ensures ResolvesEach(steps + [Resolve(id, o)], ids + {id})
    {
      var grown := steps + [Resolve(id, o)];
      forall x | x in ids + {id} ensures exists i :: 0 <= i < |grown| && grown[i].id == x {
        if x == id {
          assert grown[|steps|].id == x;
        } else {
          var i :| 0 <= i < |steps| && steps[i].id == x;
          assert grown[i].id == x;
        }
      }
    }

    method ExpireResolvedFindings(now: Time)
      modifies this`findings, this`dirty
      ensures findings == old(findings) - Expired(cfg, old(findings), now)
      ensures dirty == (old(dirty) || Expired(cfg, old(findings), now) != {})
    {
      ghost var gone: set<Id> := {};
      assert findings - {} == findings;
      if cfg.resolvedRetention <= 0 {
        return;
      }
      var left := findings;
      while left != map[]
        invariant gone + Expired(cfg, left, now) == Expired(cfg, old(findings), now)
        invariant findings == old(findings) - gone
        invariant dirty == (old(dirty) || gone != {})
        decreases left.Keys
      {
        var id :| id in left;
        var entry := left[id];
        ExpireOne(cfg, left, now, id);
        left := left - {id};
        if entry.status != Resolved || now - entry.lastSeen <= cfg.resolvedRetention {
          continue;
        }
        assert old(findings) - gone - {id} == old(findings) - (gone + {id});
        findings := findings - {id};
        dirty := true;
        gone := gone + {id};
      }
    }

    static lemma ExpireOne(cfg: Config, left: map<Id, FindingState>, now: Time, id: Id)
      requires id in left
      ensures Expired(cfg, left, now)
        == Expired(cfg, left - {id}, now) + (if IsExpired(cfg, left[id], now) then {id} else {})
    {
    }

    method PruneStaleObservations(now: Time)
      modifies this`observations, this`dirty
      ensures observations == old(observations) - Stale(cfg, old(observations), now)
      ensures dirty == (old(dirty) || Stale(cfg, old(observations), now) != {})
    {
      ghost var gone: set<string> := {};
      assert observations - {} == observations;
      if cfg.observationRetention <= 0 {
        return;
      }
      var left := observations;
      while left != map[]
        invariant gone + Stale(cfg, left, now) == Stale(cfg, old(observations), now)
        invariant observations == old(observations) - gone
        invariant dirty == (old(dirty) || gone != {})
        decreases left.Keys
      {
        var key :| key in left;
        var o := left[key];
        StaleOne(cfg, left, now, key);
        left := left - {key};
        if o.None? || o.value.lastSeen == ZERO_TIME || now - o.value.lastSeen <= cfg.observationRetention {
          continue;
        }
        assert old(observations) - gone - {key} == old(observations) - (gone + {key});
        observations := observations - {key};
        dirty := true;
        gone := gone + {key};
      }
    }

    static lemma StaleOne(cfg: Config, left: map<string, Option<Observation>>, now: Time, key: string)
      requires key in left
      ensures Stale(cfg, left, now)
        == Stale(cfg, left - {key}, now) + (if IsStale(cfg, left[key], now) then {key} else {})
    {
    }

    /** Lists a map with the ages of its entries, in any order. */
    static method ListAges<K(!new)>(ages: map<K, Time>) returns (items: seq<Item<K>>)
      ensures Lists(items, ages)
    {
      items := [];
      var todo := ages.Keys;
      while todo != {}
        invariant todo <= ages.Keys
        invariant forall i :: 0 <= i < |items| ==>
          items[i].key in ages && items[i].key !in todo && items[i].lastSeen == ages[items[i].key]
        invariant forall i, j :: 0 <= i < j < |items| ==> items[i].key != items[j].key
        invariant forall k :: k in ages && k !in todo ==> exists i :: 0 <= i < |items| && items[i].key == k
        decreases todo
      {
        var key :| key in todo;
        ghost var before := items;
        items := items + [Item(key, ages[key])];
        forall k | k in ages && k !in todo - {key} ensures exists i :: 0 <= i < |items| && items[i].key == k {
          if k == key {
            assert items[|before|].key == k;
          } else {
            var i :| 0 <= i < |before| && before[i].key == k;
            assert items[i].key == k;
          }
        }
        todo := todo - {key};
      }
    }

    /** The keys of some k oldest entries: sort, then cut. */
    static method Oldest<K(!new)>(ages: map<K, Time>, k: nat) returns (gone: set<K>)
      requires k <= |ages|
      ensures OldestK(ages, gone, k)
    {
      var items := ListAges(ages);
      var sorted := SortByAge(items);
      ReorderedLists(items, sorted, ages);
      ListsCount(sorted, ages);
      PrefixIsOldest(sorted, ages, k);
      gone := PrefixKeys(sorted, k);
    }

    static method PrefixKeys<K(!new)>(items: seq<Item<K>>, k: nat) returns (keys: set<K>)
      requires k <= |items|
      ensures keys == KeysOf(items[..k])
    {
      keys := {};
      for i := 0 to k
        invariant keys == set j | 0 <= j < i :: items[j].key
      {
        keys := keys + {items[i].key};
      }
      assert forall j :: 0 <= j < k ==> items[..k][j] == items[j];
      forall x | x in keys ensures x in KeysOf(items[..k]) {
        var j :| 0 <= j < k && items[j].key == x;
        assert items[..k][j].key == x;
      }
    }

    method PruneObservationCap() returns (gone: set<string>)
      modifies this`observations, this`dirty
      ensures ObservationCap(cfg, old(observations), gone)
      ensures observations == old(observations) - gone
      ensures dirty == (old(dirty) || gone != {})
    {
      gone := {};
      assert observations - {} == observations;
      if cfg.maxObservations <= 0 || |observations| <= cfg.maxObservations {
        return;
      }
      var ages := Ages(observations);
      gone := Oldest(ages, |observations| - cfg.maxObservations);
      observations := observations - gone;
      dirty := true;
    }

    static function Ages(observations: map<string, Option<Observation>>): (ages: map<string, Time>)
      ensures ages == ObservationAges(observations) && |ages| == |observations|
    {
      var ages := map k | k in observations :: ObservationAge(observations[k]);
      assert ages.Keys == observations.Keys;
      ages
    }

    /** pruneFindingsByStatus; without a filter every entry is a candidate. */
    method PruneFindingsByStatus(filter: Option<Status>, count: int) returns (pruned: nat, gone: set<Id>)
      modifies this`findings
      ensures var candidates := Candidates(old(findings), filter);
        && pruned == (if count <= 0 then 0 else if count > |candidates| then |candidates| else count)
        && OldestK(candidates, gone, pruned)
        && findings == old(findings) - gone
    {
      var candidates := Candidates(findings, filter);
      if count <= 0 {
        assert findings - {} == findings;
        return 0, {};
      }
      pruned := if count > |candidates| then |candidates| else count;
      gone := Oldest(candidates, pruned);
      findings := findings - gone;
    }

    static function Candidates(findings: map<Id, FindingState>, filter: Option<Status>): map<Id, Time> {
      map id | id in findings && (filter.None? || findings[id].status == filter.value) :: findings[id].lastSeen
    }

    static lemma CandidatesAreResolved(findings: map<Id, FindingState>)
      ensures Candidates(findings, Some(Resolved)) == Restrict(FindingAges(findings), WithStatus(findings, Resolved))
      ensures |Candidates(findings, Some(Resolved))| == |WithStatus(findings, Resolved)|
    {
      assert Candidates(findings, Some(Resolved)).Keys == WithStatus(findings, Resolved);
    }

    method PruneFindingCap() returns (ghost gone: set<Id>)
      modifies this`findings, this`dirty
      ensures FindingCap(cfg, old(findings), gone)
      ensures findings == old(findings) - gone
      ensures dirty == (old(dirty) || gone != {})
    {
      if cfg.maxFindings <= 0 || |findings| <= cfg.maxFindings {
        assert findings - {} == findings;
        return {};
      }
      CandidatesAreResolved(findings);
      var pruned, first := PruneFindingsByStatus(Some(Resolved), |findings| - cfg.maxFindings);
      RemovalCount(old(findings), first);
      if |findings| <= cfg.maxFindings {
        if pruned > 0 {
          dirty := true;
        }
        return first;
      }
      gone := PruneBeyondResolved(old(findings), first);
    }

    /** The second round of pruneFindingCap, when deleting the resolved entries was not enough. */
    method PruneBeyondResolved(ghost whole: map<Id, FindingState>, ghost first: set<Id>) returns (ghost gone: set<Id>)
      requires findings == whole - first && 0 < cfg.maxFindings < |findings|
      requires |findings| == |whole| - |WithStatus(whole, Resolved)|
      requires OldestK(Restrict(FindingAges(whole), WithStatus(whole, Resolved)), first, |WithStatus(whole, Resolved)|)
      modifies this`findings, this`dirty
      ensures FindingCap(cfg, whole, gone) && gone != {} && dirty
      ensures findings == whole - gone
    {
      AllCandidates(findings);
      var _, second := PruneFindingsByStatus(None, |findings| - cfg.maxFindings);
      dirty := true;
      gone := first + second;
      CapInTwoRounds(cfg, whole, first, second);
      assert whole - first - second == whole - gone;
    }

    static lemma AllCandidates(findings: map<Id, FindingState>)
      ensures Candidates(findings, None) == FindingAges(findings) && |Candidates(findings, None)| == |findings|
    {
      assert Candidates(findings, None).Keys == findings.Keys;
    }

    /** All resolved entries, and then the oldest of the rest, are what the cap takes. */
    static lemma CapInTwoRounds(cfg: Config, findings: map<Id, FindingState>, first: set<Id>, second: set<Id>)
      requires var resolved := WithStatus(findings, Resolved);
        && 0 < cfg.maxFindings < |findings| - |resolved|
        && OldestK(Restrict(FindingAges(findings), resolved), first, |resolved|)
        && OldestK(FindingAges(findings - first), second, |findings| - |resolved| - cfg.maxFindings)
      ensures FindingCap(cfg, findings, first + second) && first + second != {}
    {
      var resolved := WithStatus(findings, Resolved);
      SubsetOfSameSize(first, resolved);
      assert FindingAges(findings - first) == FindingAges(findings) - resolved;
      assert (first + second) - resolved == second;
    }

    /** The loop of pruneOldestObservation: it scans the entries in some order, with "" for "nothing yet". */
    method ScanObservations() returns (oldestKey: string, ghost order: seq<Item<string>>)
      ensures Lists(order, ObservationAges(observations)) && oldestKey == Scan(order).key
      ensures observations != map[] ==>
                if oldestKey == "" then EmptyIsOldest(ObservationAges(observations))
                else MayTake(ObservationAges(observations), oldestKey)
    {
      var oldestTime := ZERO_TIME;
      oldestKey := "";
      var todo := observations.Keys;
      order := [];
      while todo != {}
        invariant todo <= observations.Keys && Visits(order, observations, todo)
        invariant Scan(order) == Item(oldestKey, oldestTime)
        decreases todo
      {
        var k :| k in todo;
        var lastSeen := ObservationAge(observations[k]);
        VisitsOne(order, observations, todo, k);
        if oldestKey == "" || lastSeen < oldestTime {
          oldestKey, oldestTime := k, lastSeen;
        }
        order, todo := order + [Item(k, lastSeen)], todo - {k};
      }
      VisitedAll(order, observations);
      SomeAge(observations);
      if observations != map[] {
        TakesOldest(order, ObservationAges(observations));
      }
    }

    /** pruneOldestObservation: it deletes what the scan finds, if anything. */
    method PruneOldestObservation(ghost m: Machine)
      returns (found: bool, ghost key: string, ghost order: seq<Item<string>>)
      requires Shows(m) && m.dirty && observations != map[] && TooLarge(cfg, m.state)
      modifies this`observations, this`dirty
      ensures Lists(order, ObservationAges(old(observations))) && key == Scan(order).key && found == (key != "")
      ensures found ==>
                && Enabled(cfg, m, ShrinkObservation(key)) && Shows(Apply(cfg, m, ShrinkObservation(key)))
                && key in old(observations) && observations == old(observations) - {key}
      ensures !found ==> Shows(m) && observations == old(observations) && EmptyIsOldest(ObservationAges(observations))
    {
      hide TooLarge, StateBytes, Lists, Scan, ObservationAges, EmptyIsOldest;
      var oldestKey;
      oldestKey, order := ScanObservations();
      SomeAge(observations);
      key := oldestKey;
      if oldestKey == "" {
        return false, key, order;
      }
      observations := observations - {oldestKey};
      dirty := true;
      found := true;
    }

    static lemma SomeAge(observations: map<string, Option<Observation>>)
      ensures observations != map[] ==> ObservationAges(observations) != map[]
      ensures forall k :: MayTake(ObservationAges(observations), k) ==> k in observations
    {
      if observations != map[] {
        var k :| k in observations;
        assert k in ObservationAges(observations);
      }
    }

    /** The order lists the entries visited so far, each once, with its age. */
    static ghost predicate Visits(order: seq<Item<string>>, observations: map<string, Option<Observation>>,
                                  todo: set<string>) {
      && (forall i :: 0 <= i < |order| ==>
            && order[i].key in observations && order[i].key !in todo
            && order[i].lastSeen == ObservationAge(observations[order[i].key]))
      && (forall i, j :: 0 <= i < j < |order| ==> order[i].key != order[j].key)
      && (forall k :: k in observations && k !in todo ==> exists i :: 0 <= i < |order| && order[i].key == k)
    }

    static lemma VisitsOne(order: seq<Item<string>>, observations: map<string, Option<Observation>>, todo: set<string>,
                           k: string)
      requires Visits(order, observations, todo) && k in todo && k in observations
      ensures var x := Item(k, ObservationAge(observations[k]));
        && Visits(order + [x], observations, todo - {k})
        && Scan(order + [x]) == if Scan(order).key == "" || x.lastSeen < Scan(order).lastSeen then x else Scan(order)
    {
      var grown := order + [Item(k, ObservationAge(observations[k]))];
      assert grown[..|grown| - 1] == order;
      forall j | j in observations && j !in todo - {k} ensures exists i :: 0 <= i < |grown| && grown[i].key == j {
        if j == k {
          assert grown[|order|].key == k;
        } else {
          var i :| 0 <= i < |order| && order[i].key == j;
          assert grown[i].key == j;
        }
      }
    }

    static lemma VisitedAll(order: seq<Item<string>>, observations: map<string, Option<Observation>>)
      requires Visits(order, observations, {})
      ensures Lists(order, ObservationAges(observations))
    {
    }

    /** What a scan of all entries finds may be taken; it finds nothing only if the empty key is strictly oldest. */
    static lemma TakesOldest(order: seq<Item<string>>, ages: map<string, Time>)
      requires Lists(order, ages) && ages != map[]
      ensures if Scan(order).key == "" then EmptyIsOldest(ages) else MayTake(ages, Scan(order).key)
    {
      var k :| k in ages;
      ScanFindsMinimumExactly(order, ages);
      if Scan(order).key != "" {
        ScanForgets(order);
      }
    }

    /** The first loop of pruneForStateSize. A scan that finds nothing changes nothing, and the loop scans
        again; `stuck` means that it did so more than `patience` times. */
    method ShrinkObservations(start: nat, patience: nat, ghost m: Machine)
      returns (size: nat, stuck: bool, ghost steps: seq<Step>)
      requires Shows(m) && m.dirty && start == StateBytes(State()) && cfg.maxStateBytes > 0
      modifies this`observations, this`dirty
      ensures Valid(cfg, m, steps) && Shows(Run(cfg, m, steps)) && dirty
      ensures size == StateBytes(State()) && Run(cfg, m, steps).clock == m.clock
      ensures forall i :: 0 <= i < |steps| ==> steps[i].ShrinkObservation?
      ensures stuck ==> size > cfg.maxStateBytes && EmptyIsOldest(ObservationAges(observations))
      ensures !stuck && size > cfg.maxStateBytes ==> observations == map[]
      ensures observations.Keys <= old(observations.Keys)
    {
      hide StateBytes, EmptyIsOldest, Enabled, Apply, Run, Valid;
      size, stuck, steps := start, false, [];
      var tries := patience;
      ghost var k := m;
      RunsNothing(cfg, m);
      while |observations| > 0 && size > cfg.maxStateBytes && !stuck
        invariant Valid(cfg, m, steps) && k == Run(cfg, m, steps) && Shows(k) && k.dirty && k.clock == m.clock
        invariant size == StateBytes(State()) && observations.Keys <= old(observations.Keys)
        invariant forall i :: 0 <= i < |steps| ==> steps[i].ShrinkObservation?
        invariant stuck ==> size > cfg.maxStateBytes && EmptyIsOldest(ObservationAges(observations))
        decreases |observations|, tries, !stuck
      {
        ghost var before := observations;
        var found;
        ghost var key;
        ghost var order;
        found, key, order := PruneOldestObservation(k);
        if found {
          RemovalCount(before, {key});
          RunOne(cfg, m, steps, ShrinkObservation(key));
          ShrinkKeepsRest(cfg, k, key);
          k, steps := Apply(cfg, k, ShrinkObservation(key)), steps + [ShrinkObservation(key)];
        } else if tries == 0 {
          stuck := true;
        } else {
          tries := tries - 1;
        }
        size := CurrentStateBytes(State());
      }
      assert |observations| == 0 ==> observations == map[];
    }

    static lemma ShrinkKeepsRest(cfg: Config, m: Machine, key: string)
      ensures var n := Apply(cfg, m, ShrinkObservation(key)); n.clock == m.clock && n.dirty
    {
    }

    /** One round of the second loop of pruneForStateSize. */
    method ShrinkOneFinding(ghost m: Machine) returns (pruned: nat, ghost id: Id)
      requires Shows(m) && m.dirty && TooLarge(cfg, m.state) && observations == map[]
      modifies this`findings, this`dirty
      ensures pruned == 0 ==> findings == old(findings) && dirty == old(dirty) && WithStatus(findings, Resolved) == {}
      ensures pruned != 0 ==>
                && Enabled(cfg, m, ShrinkFinding(id)) && Shows(Apply(cfg, m, ShrinkFinding(id)))
                && Apply(cfg, m, ShrinkFinding(id)).clock == m.clock && Apply(cfg, m, ShrinkFinding(id)).dirty
                && |findings| < |old(findings)|
    {
      hide StateBytes, OldestK, Enabled, Apply, WithStatus, Candidates, Restrict, FindingAges, TooLarge;
      CandidatesAreResolved(findings);
      var gone;
      pruned, gone := PruneFindingsByStatus(Some(Resolved), 1);
      if pruned == 0 {
        NothingOldest(Candidates(m.state.findings, Some(Resolved)), gone);
        assert m.state.findings - {} == m.state.findings;
        id := Digest("");
      } else {
        dirty := true;
        id := OldestResolved(cfg, m, gone);
      }
    }

    static lemma OldestResolved(cfg: Config, m: Machine, gone: set<Id>) returns (id: Id)
      requires OldestK(Candidates(m.state.findings, Some(Resolved)), gone, 1)
      requires m.dirty && TooLarge(cfg, m.state) && m.state.observations == map[]
      ensures gone == {id} && Enabled(cfg, m, ShrinkFinding(id))
      ensures |m.state.findings - gone| < |m.state.findings|
      ensures Apply(cfg, m, ShrinkFinding(id)) == m.(state := m.state.(findings := m.state.findings - gone))
    {
      CandidatesAreResolved(m.state.findings);
      id := OnlyOldest(Restrict(FindingAges(m.state.findings), WithStatus(m.state.findings, Resolved)), gone);
      RemovalCount(m.state.findings, gone);
    }

    static lemma RunsNothing(cfg: Config, m: Machine)
      ensures Valid(cfg, m, []) && Run(cfg, m, []) == m
    {
    }

    /** The second loop of pruneForStateSize. */
    method ShrinkFindings(start: nat, ghost m: Machine) returns (size: nat, ghost steps: seq<Step>)
      requires Shows(m) && m.dirty && start == StateBytes(State()) && cfg.maxStateBytes > 0
      requires start > cfg.maxStateBytes ==> observations == map[]
      modifies this`findings, this`dirty
      ensures Valid(cfg, m, steps) && Shows(Run(cfg, m, steps)) && dirty
      ensures size == StateBytes(State()) && Run(cfg, m, steps).clock == m.clock
      ensures forall i :: 0 <= i < |steps| ==> steps[i].ShrinkFinding?
      ensures size > cfg.maxStateBytes ==> observations == map[] && WithStatus(findings, Resolved) == {}
    {
      hide StateBytes, WithStatus, Apply, Enabled, Run;
      size, steps := start, [];
      ghost var k := m;
      RunsNothing(cfg, m);
      while size > cfg.maxStateBytes
        invariant Valid(cfg, m, steps) && k == Run(cfg, m, steps) && Shows(k) && k.dirty && k.clock == m.clock
        invariant size == StateBytes(State())
        invariant forall i :: 0 <= i < |steps| ==> steps[i].ShrinkFinding?
        invariant size > cfg.maxStateBytes ==> observations == map[]
        decreases |findings|
      {
        ghost var id;
        var pruned;
        pruned, id := ShrinkOneFinding(k);
        if pruned == 0 {
          break;
        }
        RunOne(cfg, m, steps, ShrinkFinding(id));
        k, steps := Apply(cfg, k, ShrinkFinding(id)), steps + [ShrinkFinding(id)];
        size := CurrentStateBytes(State());
      }
    }

    /** pruneForStateSize. It terminates unless an empty observation key is strictly oldest; what it leaves
        fits, or holds no observation and no resolved finding any more. */
    method PruneForStateSize(patience: nat, ghost m: Machine) returns (size: nat, stuck: bool, ghost steps: seq<Step>)
      requires Shows(m) && m.dirty
      modifies this`findings, this`observations, this`dirty
      ensures Valid(cfg, m, steps) && Shows(Run(cfg, m, steps)) && dirty
      ensures size == StateBytes(State()) && Run(cfg, m, steps).clock == m.clock
      ensures forall i :: 0 <= i < |steps| ==> steps[i].ShrinkObservation? || steps[i].ShrinkFinding?
      ensures stuck ==> TooLarge(cfg, State()) && EmptyIsOldest(ObservationAges(observations))
      ensures !stuck && TooLarge(cfg, State()) ==> observations == map[] && WithStatus(findings, Resolved) == {}
      ensures observations.Keys <= old(observations.Keys)
    {
      hide StateBytes, EmptyIsOldest, Run, Valid, Apply, Enabled, WithStatus;
      steps, stuck := [], false;
      RunsNothing(cfg, m);
      size := CurrentStateBytes(State());
      if cfg.maxStateBytes <= 0 || size <= cfg.maxStateBytes {
        return;
      }
      ghost var more;
      size, stuck, steps := ShrinkObservations(size, patience, m);
      if stuck {
        return;
      }
      size, more := ShrinkFindings(size, Run(cfg, m, steps));
      RunConcat(cfg, m, steps, more);
      steps := steps + more;
    }

    static lemma NothingOldest<K(!new)>(ages: map<K, Time>, gone: set<K>)
      requires OldestK(ages, gone, 0)
      ensures gone == {}
    {
    }

    static lemma OnlyOldest<K(!new)>(ages: map<K, Time>, gone: set<K>) returns (k: K)
      requires OldestK(ages, gone, 1)
      ensures gone == {k} && Minimum(ages, k)
    {
      k :| k in gone;
      assert |gone - {k}| == 0;
    }

    /** The end of maybeSave: hand the state to the store, and on success clear the flag. */
    method WriteState(now: Time, ghost m: Machine) returns (ok: bool)
      requires Shows(m) && Enabled(cfg, m, Save(now, true)) && store.Valid()
      modifies this`dirty, this`lastWrite, this`saved, this`writes, store`cached, store`known, store.server
      ensures Shows(Apply(cfg, m, Save(now, ok))) && Apply(cfg, m, Save(now, ok)).clock == m.clock && store.Valid()
      ensures dirty == !ok && (ok ==> saved == State() && StateText(store.server.current) == Some(Encode(State())))
      ensures WritesFit(old(store.server.applied), |old(store.server.held)|, old(store.server.sent))
      ensures WritesSafely(old(store.server.applied), old(store.server.held), old(store.server.sent),
        old(store.server.current), old(store.Held()))
      ensures store.Spoke(old(store.server.calls), old(store.cached), Encode(State()), ok)
      ensures store.writeable && store.server.alone && old(store.server.current).Some?
              && AllAnswered(store.server.calls[|old(store.server.calls)|..]) ==>
                ok && StateText(store.server.current) == Some(Encode(State()))
    {
      ok := store.Save(State());
      if ok {
        lastWrite := now;
        dirty := false;
        saved, writes := State(), writes + [Write(now, State())];
      }
    }

    /** At most one update was applied since then: it replaced the state key, and nothing else, of the object
        that the server held at that moment, by a document within the size limit. */
    ghost predicate WritesFit(swaps: seq<Swap>, count: nat, sent: nat)
      reads this, store, store.server
    {
      && store.Replaced(swaps, count, sent, Encode(State()))
      && (store.server.applied != swaps ==> !TooLarge(cfg, State()))
    }

    /** If these steps end with a save, the store held the whole dialogue of a save for this state, and the save
        succeeded exactly if the dialogue did; otherwise nothing was said. */
    ghost predicate Tried(calls: seq<Call>, cached: Option<ConfigMap>, saving: seq<Step>)
      reads this, store, store.server
    {
      if saving != [] && Last(saving).Save? then store.Spoke(calls, cached, Encode(State()), Last(saving).ok)
      else store.server.calls == calls
    }

    /** With no other client, an object to write to and every call answered, these steps' save, if they have one,
        leaves exactly this state stored and nothing unsaved. */
    ghost predicate Persists(calls: seq<Call>, present: bool, saving: seq<Step>)
      reads this, store, store.server
    {
      && calls <= store.server.calls
      && (store.writeable && store.server.alone && present && AllAnswered(store.server.calls[|calls|..])
          && saving != [] && Last(saving).Save? ==>
            !dirty && StateText(store.server.current) == Some(Encode(State())))
    }

    /** A store that may not write changed nothing, at most three updates were sent, and with no other writer
        an applied one replaced the text that was stored before. */
    ghost predicate WritesSafely(swaps: seq<Swap>, held: seq<ConfigMap>, sent: nat, current: Option<ConfigMap>,
                                 before: Holding)
      reads this, store, store.server
    {
      && held <= store.server.held && sent <= store.server.sent <= sent + CONFLICT_RETRIES
      && store.writeable == before.writeable
      && (!store.writeable ==>
        store.server.current == current && store.server.held == held && store.server.applied == swaps)
      && store.Follows(swaps, before, Encode(State()))
    }

    /** maybeSave once its gate is passed. */
    method SaveUnsaved(now: Time, patience: nat, ghost m: Machine) returns (stuck: bool, ghost steps: seq<Step>)
      requires Shows(m) && m.clock <= now && now > ZERO_TIME && store.Valid() && WellLoaded()
      requires MaySave(cfg, dirty, lastWrite, now)
      modifies this`findings, this`observations, this`dirty, this`lastWrite, this`saved, this`writes
      modifies store`cached, store`known, store.server
      ensures Valid(cfg, m, steps) && Shows(Run(cfg, m, steps)) && Run(cfg, m, steps).clock == m.clock
      ensures store.Valid() && Synced()
      ensures stuck ==> TooLarge(cfg, State()) && EmptyIsOldest(ObservationAges(observations))
      ensures stuck ==> forall i :: 0 <= i < |steps| ==> !steps[i].Save?
      ensures forall i :: 0 <= i < |steps| ==> Saving(steps[i]) && (steps[i].Save? ==> steps[i].at == now)
      ensures !stuck ==> SavesWhenDue(cfg, m, now, steps)
      ensures WritesFit(old(store.server.applied), |old(store.server.held)|, old(store.server.sent))
      ensures WritesSafely(old(store.server.applied), old(store.server.held), old(store.server.sent),
        old(store.server.current), old(store.Held()))
      ensures Tried(old(store.server.calls), old(store.cached), steps)
      ensures Persists(old(store.server.calls), old(store.server.current).Some?, steps)
      ensures observations.Keys <= old(observations.Keys)
    {
      assert m.dirty;
      hide StateBytes, WithStatus, Apply, Enabled, Run, Valid, EmptyIsOldest, WritesFit, WritesSafely, Tried, Persists,
        SavesWhenDue, StateText, AllAnswered, MaySave, SaveDialogue, Encode, Decode;
      var size;
      size, stuck, steps := PruneForStateSize(patience, m);
      if stuck || (cfg.maxStateBytes > 0 && size > cfg.maxStateBytes) {
        NothingWritten(steps);
        if !stuck {
          NotSaved(cfg, m, steps, now);
        }
        return;
      }
      ghost var k := Run(cfg, m, steps);
      SaveThenLoad(store.namespace, State());
      SaveIsEnabled(cfg, k, now);
      var ok := WriteState(now, k);
      RunOne(cfg, m, steps, Save(now, ok));
      SavingGrows(cfg, m, steps, now, ok);
      steps := steps + [Save(now, ok)];
      WasTried(old(store.server.calls), old(store.cached), old(store.server.current).Some?, steps, ok);
    }

    /** Without a save the store is as it was. */
    lemma NothingWritten(steps: seq<Step>)
      requires forall i :: 0 <= i < |steps| ==> !steps[i].Save?
      ensures WritesFit(store.server.applied, |store.server.held|, store.server.sent)
      ensures WritesSafely(
                store.server.applied, store.server.held, store.server.sent, store.server.current, store.Held()
              )
      ensures Tried(store.server.calls, store.cached, steps)
      ensures Persists(store.server.calls, store.server.current.Some?, steps)
    {
      store.NothingReplaced(store.server.applied, |store.server.held|, store.server.sent, Encode(State()));
    }

    lemma WasTried(calls: seq<Call>, cached: Option<ConfigMap>, present: bool, steps: seq<Step>, ok: bool)
      requires steps != [] && Last(steps).Save? && Last(steps).ok == ok
      requires calls <= store.server.calls && store.Spoke(calls, cached, Encode(State()), ok) && dirty == !ok
      requires store.writeable && store.server.alone && present && AllAnswered(store.server.calls[|calls|..]) ==>
        ok && StateText(store.server.current) == Some(Encode(State()))
      ensures Tried(calls, cached, steps) && Persists(calls, present, steps)
    {
    }

    static lemma NotSaved(cfg: Config, m: Machine, steps: seq<Step>, now: Time)
      requires forall i :: 0 <= i < |steps| ==> steps[i].ShrinkObservation? || steps[i].ShrinkFinding?
      requires MaySave(cfg, m.dirty, m.lastWrite, now)
      requires var n := Run(cfg, m, steps);
        TooLarge(cfg, n.state) && n.state.observations == map[] && WithStatus(n.state.findings, Resolved) == {}
      ensures SavesWhenDue(cfg, m, now, steps)
    {
    }

    static lemma SaveIsEnabled(cfg: Config, m: Machine, now: Time)
      requires m.clock <= now && now > ZERO_TIME && MaySave(cfg, m.dirty, m.lastWrite, now) && !TooLarge(cfg, m.state)
      ensures forall ok :: Enabled(cfg, m, Save(now, ok))
    {
    }

    static lemma SavingGrows(cfg: Config, m: Machine, steps: seq<Step>, now: Time, ok: bool)
      requires forall i :: 0 <= i < |steps| ==> steps[i].ShrinkObservation? || steps[i].ShrinkFinding?
      requires MaySave(cfg, m.dirty, m.lastWrite, now) && !TooLarge(cfg, Run(cfg, m, steps).state)
      ensures SavesWhenDue(cfg, m, now, steps + [Save(now, ok)])
    {
      hide StateBytes, TooLarge, MaySave, WithStatus;
      var grown := steps + [Save(now, ok)];
      assert Init(grown) == steps && Last(grown) == Save(now, ok);
    }

    /** maybeSave. A save is tried exactly when something is unsaved, the throttle allows it and the pruned
        state fits; at most one update is applied, in at most three attempts. */
    method MaybeSave(now: Time, patience: nat, ghost m: Machine) returns (stuck: bool, ghost steps: seq<Step>)
      requires Shows(m) && m.clock <= now && now > ZERO_TIME && store.Valid() && Synced()
      modifies this`findings, this`observations, this`dirty, this`lastWrite, this`saved, this`writes
      modifies store`cached, store`known, store.server
      ensures Valid(cfg, m, steps) && Shows(Run(cfg, m, steps)) && Run(cfg, m, steps).clock == m.clock
      ensures store.Valid() && Synced()
      ensures stuck ==> MaySave(cfg, m.dirty, m.lastWrite, now) && TooLarge(cfg, State())
                        && EmptyIsOldest(ObservationAges(observations))
      ensures stuck ==> forall i :: 0 <= i < |steps| ==> !steps[i].Save?
      ensures forall i :: 0 <= i < |steps| ==> Saving(steps[i]) && (steps[i].Save? ==> steps[i].at == now)
      ensures !stuck ==> SavesWhenDue(cfg, m, now, steps)
      ensures WritesFit(old(store.server.applied), |old(store.server.held)|, old(store.server.sent))
      ensures WritesSafely(old(store.server.applied), old(store.server.held), old(store.server.sent),
        old(store.server.current), old(store.Held()))
      ensures Tried(old(store.server.calls), old(store.cached), steps)
      ensures Persists(old(store.server.calls), old(store.server.current).Some?, steps)
      ensures observations.Keys <= old(observations.Keys)
    {
      hide StateBytes, WithStatus, Apply, Enabled, Valid, EmptyIsOldest;
      if !dirty || (lastWrite != ZERO_TIME && now - lastWrite < cfg.stateWriteInterval) {
        RunsNothing(cfg, m);
        return false, [];
      }
      stuck, steps := SaveUnsaved(now, patience, m);
    }

    /** The version and namespace of a state that Load returned. */
    ghost predicate WellLoaded() {
      version == 1 && (namespace == "" ==> store.namespace == "")
    }

    /** After a successful load, and with no other writer of the state key, a clear flag means that a load
        would return exactly what was saved last. */
    ghost predicate Stored()
      reads this, store, store.server
    {
      adopted && !dirty && !store.server.others ==>
        && StateText(store.server.current).Some?
        && Decode(store.namespace, StateText(store.server.current).value) == Some(saved)
    }

    /** A clear flag means that a load would return exactly the state in memory. */
    ghost predicate Synced()
      reads this, store, store.server
    {
      WellLoaded() && Stored() && (!dirty ==> State() == saved)
    }

    method LoadSuppressions(data: Option<set<string>>)
      modifies this`suppressions
      ensures suppressions == LoadedKeys(data)
    {
      suppressions := LoadedKeys(data);
    }

    /** The middle of Poll: the accepted results in the order of the checks. */
    method ApplyResults(results: seq<CheckResult>, now: Time, ghost m: Machine)
      returns (active: set<Id>, complete: bool, ghost steps: seq<Step>)
      requires Shows(m) && m.clock == now && m.active == {} && m.complete
      requires forall i :: 0 <= i < |results| ==> Sound(cfg, results[i])
      modifies this`findings, this`observations, this`dirty, broker
      ensures EraseAll(steps) == Script(suppressions, results)
      ensures Valid(cfg, m, steps) && Shows(Run(cfg, m, steps)) && ("" !in old(observations) ==> "" !in observations)
      ensures Run(cfg, m, steps).active == active && Run(cfg, m, steps).clock == now
      ensures Run(cfg, m, steps).complete == complete == AllComplete(results)
      ensures old(dirty) ==> dirty
    {
      hide Apply, Run, Valid;
      active, complete, steps := {}, true, [];
      RunsNothing(cfg, m);
      for i := 0 to |results|
        invariant EraseAll(steps) == Script(suppressions, results[..i])
        invariant Valid(cfg, m, steps) && Shows(Run(cfg, m, steps))
          && ("" !in old(observations) ==> "" !in observations)
        invariant Run(cfg, m, steps).active == active && Run(cfg, m, steps).clock == now
        invariant Run(cfg, m, steps).complete == complete == AllComplete(results[..i])
        invariant old(dirty) ==> dirty
      {
        complete := complete && results[i].complete;
        ghost var more;
        active, more := ApplyResult(results[i], now, active, Run(cfg, m, steps));
        RunConcat(cfg, m, steps, more);
        ScriptGrows(suppressions, results[..i + 1], results[..i], results[i], steps, more);
        CompleteGrows(results[..i + 1], results[..i], results[i]);
        steps := steps + more;
      }
      assert results[..|results|] == results;
    }

    static lemma ScriptGrows(suppressions: set<string>, all: seq<CheckResult>, init: seq<CheckResult>, r: CheckResult,
                             steps: seq<Step>, more: seq<Step>)
      requires all == init + [r]
      requires EraseAll(steps) == Script(suppressions, init)
      requires EraseAll(more) == [Accept(r.observations, r.complete)] + Prompts(suppressions, r.findings)
      ensures EraseAll(steps + more) == Script(suppressions, all)
    {
      EraseConcat(steps, more);
      assert Init(all) == init && Last(all) == r;
    }

    static lemma CompleteGrows(all: seq<CheckResult>, init: seq<CheckResult>, r: CheckResult)
      requires all == init + [r]
      ensures AllComplete(all) <==> AllComplete(init) && r.complete
    {
      assert forall i :: 0 <= i < |init| ==> all[i] == init[i];
      assert all[|init|] == r;
    }

    method PruneByAge(now: Time, ghost k: Machine)
      requires Shows(k) && k.clock == now
      modifies this`findings, this`observations, this`dirty
      ensures Shows(Aged(cfg, k)) && observations.Keys <= old(observations.Keys) && (old(dirty) ==> dirty)
    {
      hide Expired, Stale;
      ExpireResolvedFindings(now);
      PruneStaleObservations(now);
    }

    method PruneByCap(ghost k: Machine) returns (ghost keys: set<string>, ghost ids: set<Id>)
      requires Shows(k)
      modifies this`findings, this`observations, this`dirty
      ensures Enabled(cfg, k, CapObservations(keys))
      ensures Enabled(cfg, Apply(cfg, k, CapObservations(keys)), CapFindings(ids))
      ensures Shows(Apply(cfg, Apply(cfg, k, CapObservations(keys)), CapFindings(ids)))
      ensures observations.Keys <= old(observations.Keys) && (old(dirty) ==> dirty)
    {
      hide ObservationCap, FindingCap, Apply, Enabled;
      keys := PruneObservationCap();
      CapSteps(cfg, k, keys, {});
      ids := PruneFindingCap();
      CapSteps(cfg, Apply(cfg, k, CapObservations(keys)), {}, ids);
    }

    static lemma CapSteps(cfg: Config, m: Machine, keys: set<string>, ids: set<Id>)
      ensures Enabled(cfg, m, CapObservations(keys)) <==> ObservationCap(cfg, m.state.observations, keys)
      ensures Enabled(cfg, m, CapFindings(ids)) <==> FindingCap(cfg, m.state.findings, ids)
      ensures Apply(cfg, m, CapObservations(keys)) == WithoutObservations(m, keys)
      ensures Apply(cfg, m, CapFindings(ids)) == WithoutFindings(m, ids)
    {
    }

    /** Poll, given what the suppression ConfigMap holds and the result that runCheck accepted for each enabled
        check. It is a poll of the protocol, and it keeps the stored state in step. It does not
        come to an end only if a loaded document holds an empty observation key. */
    method Poll(now: Time, patience: nat, data: Option<set<string>>,
                accepted: Listing.CheckKind -> CheckResult, ghost m: Machine)
      returns (stuck: bool, ghost p: Protocol.Poll)
      requires Shows(m) && now > ZERO_TIME && store.Valid() && Synced()
      requires forall kind :: Listing.IsEnabled(cfg.checks, kind) ==> Sound(cfg, accepted(kind))
      modifies this`findings, this`observations, this`dirty, this`lastWrite, this`saved, this`writes, this`suppressions
      modifies broker, store`cached, store`known, store.server
      ensures IsPoll(cfg, m, p) && Shows(Run(cfg, m, Steps(p))) && (!stuck ==> Completes(cfg, m, p))
      ensures p.now == now && p.results == ResultsOf(cfg.checks, accepted) && p.suppressions == LoadedKeys(data)
      ensures store.Valid() && Synced()
      ensures stuck ==> TooLarge(cfg, State()) && EmptyIsOldest(ObservationAges(observations))
      ensures "" !in old(observations) ==> !stuck && "" !in observations
      ensures WritesFit(old(store.server.applied), |old(store.server.held)|, old(store.server.sent))
      ensures WritesSafely(old(store.server.applied), old(store.server.held), old(store.server.sent),
        old(store.server.current), old(store.Held()))
      ensures Tried(old(store.server.calls), old(store.cached), p.saving)
      ensures Persists(old(store.server.calls), old(store.server.current).Some?, p.saving)
    {
      hide StateBytes, SavesWhenDue, Apply, Run, Valid, LoadedKeys, WritesFit, WritesSafely, ResultsOf, Tried, Persists;
      LoadSuppressions(data);
      var results := ResultsOf(cfg.checks, accepted);
      SoundResults(cfg, accepted);
      BeginMeaning(cfg, m, now);
      ghost var begun := Apply(cfg, m, Begin(now));
      var active, complete;
      ghost var reports, resolves: seq<Step>;
      active, complete, reports := ApplyResults(results, now, begun);
      ghost var n := Run(cfg, begun, reports);
      resolves := [];
      if complete {
        resolves := ResolveMissingFindings(now, active, n);
      }
      RunKeepsClean(cfg, begun, reports);
      RunKeepsClean(cfg, n, resolves);
      RunsNothing(cfg, n);
      assert Synced();
      stuck, p := Finish(now, patience, results, begun, reports, resolves);
      PollParts(cfg, m, p);
    }

    static lemma SoundResults(cfg: Config, accepted: Listing.CheckKind -> CheckResult)
      requires forall kind :: Listing.IsEnabled(cfg.checks, kind) ==> Sound(cfg, accepted(kind))
      ensures var results := ResultsOf(cfg.checks, accepted); forall i :: 0 <= i < |results| ==> Sound(cfg, results[i])
    {
      var kinds := EnabledAmong(cfg.checks, ALL_CHECKS);
      forall i | 0 <= i < |kinds| ensures Sound(cfg, accepted(kinds[i])) {
        AmongExactly(cfg.checks, ALL_CHECKS, kinds[i]);
      }
    }

    static lemma BeginMeaning(cfg: Config, m: Machine, now: Time)
      ensures Apply(cfg, m, Begin(now)) == m.(active := {}, complete := true, clock := now)
    {
    }

    /** The end of Poll: expiry, pruning and the save. */
    method Finish(now: Time, patience: nat, ghost results: seq<CheckResult>, ghost begun: Machine,
                  ghost reports: seq<Step>, ghost resolves: seq<Step>)
      returns (stuck: bool, ghost p: Protocol.Poll)
      requires var k := Run(cfg, Run(cfg, begun, reports), resolves); Shows(k) && k.clock == now
      requires now > ZERO_TIME && store.Valid() && Synced()
      modifies this`findings, this`observations, this`dirty, this`lastWrite, this`saved, this`writes
      modifies store`cached, store`known, store.server
      ensures p.now == now && p.results == results && p.suppressions == suppressions
      ensures p.reports == reports && p.resolves == resolves
      ensures var k := Run(cfg, Run(cfg, begun, reports), resolves);
        && Valid(cfg, k, Pruning(p)) && Shows(Run(cfg, k, Pruning(p)))
        && (!stuck ==> SavesWhenDue(cfg, Capped(cfg, k, p.capObservations, p.capFindings), now, p.saving))
      ensures forall i :: 0 <= i < |p.saving| ==> Saving(p.saving[i]) && (p.saving[i].Save? ==> p.saving[i].at == now)
      ensures store.Valid() && Synced()
      ensures stuck ==> TooLarge(cfg, State()) && EmptyIsOldest(ObservationAges(observations))
      ensures observations.Keys <= old(observations.Keys)
      ensures WritesFit(old(store.server.applied), |old(store.server.held)|, old(store.server.sent))
      ensures WritesSafely(old(store.server.applied), old(store.server.held), old(store.server.sent),
        old(store.server.current), old(store.Held()))
      ensures Tried(old(store.server.calls), old(store.cached), p.saving)
      ensures Persists(old(store.server.calls), old(store.server.current).Some?, p.saving)
    {
      hide StateBytes, Run, Valid, Apply, Enabled, LoadedKeys, SavesWhenDue, EmptyIsOldest;
      ghost var k := Run(cfg, Run(cfg, begun, reports), resolves);
      PruneByAge(now, k);
      ghost var keys, ids := PruneByCap(Aged(cfg, k));
      CappedKeepsClean(cfg, k, keys, ids);
      CappedKeepsClock(cfg, k, keys, ids);
      assert Synced();
      ghost var saving;
      stuck, saving := MaybeSave(now, patience, Capped(cfg, k, keys, ids));
      p := Protocol.Poll(now, suppressions, results, reports, resolves, keys, ids, saving);
      PruningParts(cfg, k, p);
    }

    static lemma CappedKeepsClock(cfg: Config, k: Machine, keys: set<string>, ids: set<Id>)
      ensures Capped(cfg, k, keys, ids).clock == k.clock
    {
    }
  }

  /** The start of main.go: load the state, or fall back to a new one, and build the monitor on it. A stored
      document that was read and refused is never written over. One that could not be read is: `heard` is
      false, the store stays writeable, and what is stored is guarded only if there is no object. */
  method Boot(cfg: Config, broker: Broker, store: StateStore) returns (monitor: Monitor, heard: bool)
    requires store.Valid() && cfg.namespace == store.namespace && broker.log == [] && store.known == None
    requires store.writeable
    modifies store`cached, store`writeable, store`known
    modifies store.server`current, store.server`lastVersion, store.server`held, store.server`calls
    ensures fresh(monitor) && monitor.cfg == cfg && monitor.broker == broker && monitor.store == store
    ensures store.Valid() && monitor.Synced() && monitor.Shows(Start(monitor.State()))
    ensures monitor.adopted ==>
              && heard && StateText(store.server.current).Some? && store.known == StateText(store.server.current)
              && Decode(store.namespace, store.known.value) == Some(monitor.State())
    ensures !monitor.adopted ==> monitor.State() == NewMonitorState(cfg.namespace)
    ensures heard && !monitor.adopted ==>
              && !store.writeable && StateText(store.server.current).Some?
              && Decode(store.namespace, StateText(store.server.current).value).None?
    ensures !heard ==> !monitor.adopted && store.writeable == old(store.writeable)
    ensures old(store.server.calls) <= store.server.calls
    ensures LoadDialogue(store.server.calls[|old(store.server.calls)|..], store.namespace,
      if heard then Some(monitor.State()) else None, monitor.adopted, store.cached, store.writeable)
    ensures !store.server.others && old(StateText(store.server.current)).Some?
            && AllAnswered(store.server.calls[|old(store.server.calls)|..]) ==>
              var stored := Decode(store.namespace, old(StateText(store.server.current)).value);
              && monitor.adopted == stored.Some? && store.writeable == monitor.adopted
              && (monitor.adopted ==> monitor.State() == stored.value)
    ensures !store.server.others ==>
              (Guarded(store.Held())
               <==> (monitor.adopted || !store.writeable || StateText(store.server.current) == None))
  {
    hide Guarded;
    ghost var before := store.Held();
    var loaded, ok := store.Load();
    heard := loaded.Some?;
    if !store.server.others {
      LoadGuardsExactly(before, store.Held(), store.namespace, loaded, ok);
    }
    var state := if loaded.Some? then loaded.value else NewMonitorState(cfg.namespace);
    monitor := new Monitor(cfg, broker, store, state, ok);
  }

  /** What one poll gets from outside. */
  datatype PollInput = PollInput(
    now: Time, suppressionData: Option<set<string>>, accepted: Listing.CheckKind -> CheckResult)

  /** The text known before this update: the loaded one, then the one that the update before it put there. */
  function KnownBefore(swaps: seq<Swap>, from: nat, known: Option<Document>, i: nat): Option<Document> {
    if from < i <= |swaps| then StateText(Some(swaps[i - 1].after)) else known
  }

  /** Each of these updates replaced the text that was known before it. */
  ghost predicate Chained(swaps: seq<Swap>, from: nat, known: Option<Document>) {
    forall i :: from <= i < |swaps| ==> StateText(Some(swaps[i].before)) == KnownBefore(swaps, from, known, i)
  }

  /** The polls come in order of time. */
  ghost predicate InTime(inputs: seq<PollInput>) {
    forall i, j :: 0 <= i < j < |inputs| ==> inputs[i].now <= inputs[j].now
  }

  /** What holds of the monitor after these polls of the inputs, since a start with this state. */
  ghost predicate Served(monitor: Monitor, start: MonitorState, inputs: seq<PollInput>, polls: seq<Poll>)
    reads monitor, monitor.broker, monitor.store, monitor.store.server
  {
    var cfg, m := monitor.cfg, RunPolls(monitor.cfg, Start(start), polls);
    && ValidPolls(cfg, Start(start), polls) && CompletePolls(cfg, Start(start), polls)
    && |polls| <= |inputs|
    && (forall j :: 0 <= j < |polls| ==>
          && polls[j].now == inputs[j].now && polls[j].results == ResultsOf(cfg.checks, inputs[j].accepted)
          && polls[j].suppressions == LoadedKeys(inputs[j].suppressionData))
    && m.clock == (if polls == [] then ZERO_TIME else inputs[|polls| - 1].now)
    && (InTime(inputs) ==> TimesForward(cfg, Start(start), polls))
  }

  /** What the store went through since it held this and had applied these updates. */
  ghost predicate Kept(store: StateStore, before: Holding, swaps: seq<Swap>, current: Option<ConfigMap>,
                       calls: seq<Call>)
    reads store, store.server
  {
    && swaps <= store.server.applied && calls <= store.server.calls && store.writeable == before.writeable
    && (!store.writeable ==> store.server.current == current && store.server.applied == swaps)
    && (!store.server.others ==> Tracks(before, swaps, store.Held(), store.server.applied))
  }

  lemma KeptOn(store: StateStore, before: Holding, swaps: seq<Swap>, current: Option<ConfigMap>, calls: seq<Call>,
               h: Holding, applied: seq<Swap>, now: Option<ConfigMap>, said: seq<Call>, d: Document)
    requires swaps <= applied && calls <= said && h.writeable == before.writeable
    requires !h.writeable ==> now == current && applied == swaps
    requires !store.server.others ==> Tracks(before, swaps, h, applied)
    requires said <= store.server.calls && store.writeable == h.writeable
    requires !store.writeable ==> store.server.current == now && store.server.applied == applied
    requires applied <= store.server.applied && |store.server.applied| <= |applied| + 1
    requires store.server.applied != applied ==> ReplacesState(store.server.applied[|applied|], d)
    requires store.Follows(applied, h, d)
    ensures Kept(store, before, swaps, current, calls)
  {
    if !store.server.others {
      TracksOn(before, swaps, h, applied, store.Held(), store.server.applied, d);
    }
  }

  /** The loop of main.go: poll after poll. `rest` holds the steps of a poll that does not come to an end. */
  method PollAll(monitor: Monitor, inputs: seq<PollInput>, stop: Time, patience: nat)
    returns (stuck: bool, ghost polls: seq<Poll>, ghost rest: seq<Step>)
    requires monitor.Shows(Start(monitor.State())) && monitor.store.Valid() && monitor.Synced()
    requires forall i, kind :: 0 <= i < |inputs| && Listing.IsEnabled(monitor.cfg.checks, kind) ==>
      Sound(monitor.cfg, inputs[i].accepted(kind))
    requires forall i :: 0 <= i < |inputs| ==> ZERO_TIME < inputs[i].now <= stop
    requires stop > ZERO_TIME
    modifies monitor, monitor.broker, monitor.store`cached, monitor.store`known, monitor.store.server
    ensures Served(monitor, old(monitor.State()), inputs, polls)
    ensures var m := RunPolls(monitor.cfg, Start(old(monitor.State())), polls);
      Valid(monitor.cfg, m, rest) && monitor.Shows(Run(monitor.cfg, m, rest))
    ensures !stuck ==> |polls| == |inputs| && rest == []
    ensures monitor.store.Valid() && monitor.Synced()
    ensures "" !in old(monitor.observations) ==> !stuck && "" !in monitor.observations
    ensures Kept(monitor.store, old(monitor.store.Held()), old(monitor.store.server.applied),
                 old(monitor.store.server.current), old(monitor.store.server.calls))
  {
    hide StateBytes, Run, Valid, IsPoll, Completes, Steps, RunPolls, ValidPolls, CompletePolls, WithStatus, LoadedKeys,
      ResultsOf, TimesForward, SavesWhenDue, TooLarge, MaySave, Tracks, CanWrite, Written, StateText, ReplacesState;
    ghost var m := Start(monitor.State());
    polls, rest, stuck := [], [], false;
    PollsBegin(monitor.cfg, m);
    ForwardBegins(monitor.cfg, m);
    TracksBegin(monitor.store.Held(), monitor.store.server.applied);
    Monitor.RunsNothing(monitor.cfg, m);
    for i := 0 to |inputs|
      invariant Served(monitor, old(monitor.State()), inputs, polls) && |polls| == i
      invariant m == RunPolls(monitor.cfg, Start(old(monitor.State())), polls) && monitor.Shows(m)
      invariant monitor.store.Valid() && monitor.Synced() && rest == []
      invariant "" !in old(monitor.observations) ==> "" !in monitor.observations
      invariant Kept(monitor.store, old(monitor.store.Held()), old(monitor.store.server.applied),
                     old(monitor.store.server.current), old(monitor.store.server.calls))
    {
      ghost var p;
      ghost var h, applied := monitor.store.Held(), monitor.store.server.applied;
      ghost var now, said := monitor.store.server.current, monitor.store.server.calls;
      stuck, p := monitor.Poll(inputs[i].now, patience, inputs[i].suppressionData, inputs[i].accepted, m);
      KeptOn(monitor.store, old(monitor.store.Held()), old(monitor.store.server.applied),
             old(monitor.store.server.current), old(monitor.store.server.calls), h, applied, now, said,
             Encode(monitor.State()));
      PollIsValid(monitor.cfg, m, p);
      if stuck {
        return stuck, polls, Steps(p);
      }
      PollEndsAt(monitor.cfg, m, p);
      PollsGrow(monitor.cfg, Start(old(monitor.State())), polls, p);
      if InTime(inputs) {
        ForwardGrows(monitor.cfg, Start(old(monitor.State())), polls, p);
      }
      m, polls := Run(monitor.cfg, m, Steps(p)), polls + [p];
    }
    Monitor.RunsNothing(monitor.cfg, m);
  }

  /** The life of the process: the loop, and at the end the flush with the interval added. `rest` is the flush, or
      the steps of a poll that does not come to an end. The flush leaves nothing unsaved if the polls came in
      order of time, the object is there and no one else writes it, every call was answered, and the state fits. */
  method Serve(monitor: Monitor, inputs: seq<PollInput>, stop: Time, patience: nat)
    returns (stuck: bool, ghost polls: seq<Poll>, ghost rest: seq<Step>)
    requires monitor.Shows(Start(monitor.State())) && monitor.store.Valid() && monitor.Synced()
    requires forall i, kind :: 0 <= i < |inputs| && Listing.IsEnabled(monitor.cfg.checks, kind) ==>
      Sound(monitor.cfg, inputs[i].accepted(kind))
    requires forall i :: 0 <= i < |inputs| ==> ZERO_TIME < inputs[i].now <= stop
    requires stop > ZERO_TIME && monitor.cfg.stateWriteInterval >= 0
    modifies monitor, monitor.broker, monitor.store`cached, monitor.store`known, monitor.store.server
    ensures Served(monitor, old(monitor.State()), inputs, polls)
    ensures var m := RunPolls(monitor.cfg, Start(old(monitor.State())), polls);
      && Valid(monitor.cfg, m, rest) && monitor.Shows(Run(monitor.cfg, m, rest))
      && (!stuck ==> |polls| == |inputs|
                     && SavesWhenDue(monitor.cfg, m, stop + monitor.cfg.stateWriteInterval, rest))
    ensures "" !in old(monitor.observations) ==> !stuck
    ensures monitor.Synced()
    ensures Kept(monitor.store, old(monitor.store.Held()), old(monitor.store.server.applied),
                 old(monitor.store.server.current), old(monitor.store.server.calls))
    ensures !monitor.store.server.others && old(Guarded(monitor.store.Held())) ==>
              Chained(monitor.store.server.applied, |old(monitor.store.server.applied)|, old(monitor.store.known))
    ensures !stuck && InTime(inputs) && monitor.store.writeable && monitor.store.server.alone
            && old(monitor.store.server.current).Some? && !TooLarge(monitor.cfg, monitor.State())
            && AllAnswered(monitor.store.server.calls[|old(monitor.store.server.calls)|..]) ==>
              !monitor.dirty
  {
    hide StateBytes, Run, Valid, IsPoll, Completes, Steps, RunPolls, ValidPolls, CompletePolls, WithStatus, LoadedKeys,
      ResultsOf, TimesForward, SavesWhenDue, TooLarge, MaySave, Tracks, CanWrite, Written, StateText, ReplacesState,
      AllAnswered, Chained, Guarded;
    stuck, polls, rest := PollAll(monitor, inputs, stop, patience);
    ghost var m := RunPolls(monitor.cfg, Start(old(monitor.State())), polls);
    ghost var h, applied := monitor.store.Held(), monitor.store.server.applied;
    ghost var now, said := monitor.store.server.current, monitor.store.server.calls;
    if !stuck {
      Monitor.RunsNothing(monitor.cfg, m);
      stuck, rest := monitor.MaybeSave(stop + monitor.cfg.stateWriteInterval, patience, m);
      KeptOn(monitor.store, old(monitor.store.Held()), old(monitor.store.server.applied),
             old(monitor.store.server.current), old(monitor.store.server.calls), h, applied, now, said,
             Encode(monitor.State()));
      if !stuck && InTime(inputs) && monitor.store.server.alone && old(monitor.store.server.current).Some? {
        FlushIsNeverThrottled(monitor.cfg, old(monitor.State()), polls, stop);
        FlushSaves(monitor.cfg, m, stop + monitor.cfg.stateWriteInterval, rest);
        AnsweredToTheEnd(monitor.store.server.calls, |old(monitor.store.server.calls)|, |said|);
        TracksPresent(old(monitor.store.Held()), old(monitor.store.server.applied), h, applied);
        PresentText(now);
        PresentText(old(monitor.store.server.current));
      }
    }
    if !monitor.store.server.others {
      TracksChain(old(monitor.store.Held()), old(monitor.store.server.applied), monitor.store.Held(),
                  monitor.store.server.applied);
    }
  }

  lemma ForwardBegins(cfg: Config, m: Machine)
    ensures TimesForward(cfg, m, [])
  {
  }

  lemma ForwardGrows(cfg: Config, m: Machine, polls: seq<Poll>, p: Poll)
    requires TimesForward(cfg, m, polls) && RunPolls(cfg, m, polls).clock <= p.now
    ensures TimesForward(cfg, m, polls + [p])
  {
    assert Init(polls + [p]) == polls && Last(polls + [p]) == p;
  }

  /** A flush that is due and fits ends with a save; one that is not due has nothing to save. */
  lemma FlushSaves(cfg: Config, m: Machine, at: Time, rest: seq<Step>)
    requires SavesWhenDue(cfg, m, at, rest) && (MaySave(cfg, m.dirty, m.lastWrite, at) <==> m.dirty)
    ensures !TooLarge(cfg, Run(cfg, m, rest).state) ==>
      (rest != [] && Last(rest).Save?) || !Run(cfg, m, rest).dirty
  {
  }

  lemma AnsweredToTheEnd(calls: seq<Call>, from: nat, later: nat)
    requires from <= later <= |calls|
    ensures AllAnswered(calls[from..]) ==> AllAnswered(calls[later..])
  {
    assert calls[later..] == calls[from..][later - from..];
  }

  /** What any number of polls makes of what a process holds, with no other writer. */
  ghost predicate Tracks(before: Holding, swaps: seq<Swap>, h: Holding, applied: seq<Swap>) {
    && swaps <= applied && h.writeable == before.writeable
    && (applied == swaps ==> h == before)
    && (applied != swaps ==> h.text == h.known == StateText(Some(applied[|applied| - 1].after)))
    && (before.text == before.known || !CanWrite(before) ==> Chained(applied, |swaps|, before.known))
  }

  lemma TracksBegin(h: Holding, applied: seq<Swap>)
    ensures Tracks(h, applied, h, applied)
  {
  }

  lemma TracksPresent(before: Holding, swaps: seq<Swap>, h: Holding, applied: seq<Swap>)
    requires Tracks(before, swaps, h, applied)
    ensures before.text.Some? ==> h.text.Some?
  {
  }

  lemma TracksChain(before: Holding, swaps: seq<Swap>, h: Holding, applied: seq<Swap>)
    requires Tracks(before, swaps, h, applied)
    ensures Guarded(before) ==> Chained(applied, |swaps|, before.known)
  {
    GuardedExactly(before);
  }

  lemma PresentText(o: Option<ConfigMap>)
    ensures o.Some? <==> StateText(o).Some?
  {
  }

  lemma TracksOn(before: Holding, swaps: seq<Swap>, h: Holding, applied: seq<Swap>, h': Holding, applied': seq<Swap>,
                 d: Document)
    requires Tracks(before, swaps, h, applied) && applied <= applied' && |applied'| <= |applied| + 1
    requires applied' == applied ==> h' == h
    requires applied' != applied ==>
               && CanWrite(h) && h' == Written(h, d) && StateText(Some(applied'[|applied|].before)) == h.text
               && ReplacesState(applied'[|applied|], d)
    ensures Tracks(before, swaps, h', applied')
  {
    hide Chained;
    if (before.text == before.known || !CanWrite(before)) && applied' != applied {
      if applied == swaps {
        assert |applied| == |swaps|;
      }
      ChainedGrows(applied, applied', |swaps|, before.known);
    }
  }

  lemma ChainedGrows(swaps: seq<Swap>, swaps': seq<Swap>, from: nat, known: Option<Document>)
    requires Chained(swaps, from, known) && swaps <= swaps' && |swaps'| == |swaps| + 1
    requires StateText(Some(swaps'[|swaps|].before)) == KnownBefore(swaps, from, known, |swaps|)
    ensures Chained(swaps', from, known)
  {
    hide StateText;
  }

  lemma PollIsValid(cfg: Config, m: Machine, p: Poll)
    requires IsPoll(cfg, m, p)
    ensures Valid(cfg, m, Steps(p))
  {
  }

  lemma PollEndsAt(cfg: Config, m: Machine, p: Poll)
    requires IsPoll(cfg, m, p)
    ensures Run(cfg, m, Steps(p)).clock == p.now
  {
    hide IsPoll, Valid, Pruning;
    PollSavesNow(cfg, m, p);
    assert Steps(p) == [Begin(p.now)] + AfterBegin(p);
    RunCons(cfg, m, Begin(p.now), AfterBegin(p));
    ClockStays(cfg, Apply(cfg, m, Begin(p.now)), AfterBegin(p));
  }
}
