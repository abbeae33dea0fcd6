/** Abandoned goroutines never affect m.state: every interleaving looks like the main loop running alone. */
module Isolation {
  import opened Base
  import opened Findings
  import opened States
  import opened Protocol
  import opened Listing
  import opened History
  import opened Memory
  import opened Concurrency
  import opened Consumer
  import opened Convergence
  import opened Lifecycle

  // ----- who owns what -----

  /** No usage check of this poll is still running. */
  ghost predicate NoWriter(w: World, poll: nat) {
    forall i :: 0 <= i < |w.checkers| && w.checkers[i].job.Usage? && w.checkers[i].poll == poll ==>
      Finished(w.checkers[i])
  }

  /** A slice that only the main goroutine can reach for writing. */
  ghost predicate Fenced(w: World, s: Slice) {
    s.Slice? ==>
      && InBounds(w.heap, s)
      && (w.heap[s.base].poll < w.poll || (w.heap[s.base].poll == w.poll && w.usageRun))
      && NoWriter(w, w.heap[s.base].poll)
  }

  ghost predicate CellsFenced(w: World, cells: map<string, Option<Cell>>) {
    forall k :: k in cells && cells[k].Some? ==> Fenced(w, cells[k].value.samples)
  }

  ghost predicate StateFenced(w: World) {
    CellsFenced(w, w.observations)
  }

  /** No listing goroutine still writes this snapshot. */
  ghost predicate Settled(w: World, snapshot: nat) {
    forall j :: 0 <= j < |w.listers| && w.listers[j].target == snapshot ==> w.listers[j].written >= FIELDS
  }

  /** A check goroutine writes arrays of its own poll only, and reads a snapshot that no one writes. */
  ghost predicate Contained(w: World, c: Checker) {
    && c.poll <= w.poll
    && (c.poll == w.poll ==> c.prior == w.prior && (c.job.Usage? ==> w.usageRun))
    && Owned(w.heap, c.prior, c.poll) && Apart(c.prior, c.prior)
    && Owned(w.heap, c.delta, c.poll) && Apart(c.delta, c.prior)
    && c.snapshot < |w.snapshots| && Settled(w, c.snapshot)
  }

  ghost predicate AllContained(w: World) {
    forall i :: 0 <= i < |w.checkers| ==> Contained(w, w.checkers[i])
  }

  /** One usage check a poll, one listing goroutine a snapshot. */
  ghost predicate Exclusive(w: World) {
    && (forall i, j :: 0 <= i < j < |w.checkers| && w.checkers[i].job.Usage? && w.checkers[j].job.Usage? ==>
          w.checkers[i].poll != w.checkers[j].poll)
    && (forall i, j :: 0 <= i < j < |w.listers| ==> w.listers[i].target != w.listers[j].target)
    && (forall j :: 0 <= j < |w.listers| ==> w.listers[j].target < |w.snapshots|)
  }

  ghost predicate PhaseOk(w: World) {
    match w.phase
    case Idle => true
    case Listing(i) => i < |w.listers| && w.listers[i].target == w.snapshot
    case AtWork => w.snapshot < |w.snapshots| && Settled(w, w.snapshot)
    case Waiting(i) =>
      && w.snapshot < |w.snapshots| && Settled(w, w.snapshot) && i < |w.checkers|
      && w.checkers[i].poll == w.poll && w.checkers[i].now == w.main.clock && w.checkers[i].snapshot == w.snapshot
  }

  /** The invariant of every interleaving. */
  ghost predicate Separated(w: World) {
    && StateFenced(w) && AllContained(w) && Exclusive(w) && PhaseOk(w)
    && Owned(w.heap, w.prior, w.poll) && Apart(w.prior, w.prior)
    && (forall i :: 0 <= i < |w.heap| ==> w.heap[i].poll <= w.poll)
  }

  /** Arrays stay with their poll and their size, and finished checks stay finished. */
  ghost predicate Preserves(w: World, v: World) {
    && |w.heap| <= |v.heap|
    && (forall i :: 0 <= i < |w.heap| ==> v.heap[i].poll == w.heap[i].poll && |v.heap[i].cells| == |w.heap[i].cells|)
    && (w.poll < v.poll || (w.poll == v.poll && (w.usageRun ==> v.usageRun)))
    && |w.checkers| <= |v.checkers|
    && (forall i :: 0 <= i < |w.checkers| && w.checkers[i].job.Usage? ==>
          v.checkers[i].poll == w.checkers[i].poll && (Finished(w.checkers[i]) ==> Finished(v.checkers[i])))
    && (forall i :: |w.checkers| <= i < |v.checkers| && v.checkers[i].job.Usage? ==>
      v.checkers[i].poll == w.poll && !w.usageRun)
    && (forall i :: 0 <= i < |w.checkers| ==> v.checkers[i].job == w.checkers[i].job)
  }

  lemma StaysFenced(w: World, v: World)
    requires StateFenced(w) && Preserves(w, v) && v.observations == w.observations
    ensures StateFenced(v)
  {
    forall k | k in v.observations && v.observations[k].Some? ensures Fenced(v, v.observations[k].value.samples) {
      var s := w.observations[k].value.samples;
      assert Fenced(w, s);
      if s.Slice? {
        assert NoWriter(w, w.heap[s.base].poll);
        assert NoWriter(v, w.heap[s.base].poll);
      }
    }
  }

  // ----- turns of the main goroutine keep the separation -----

  lemma StartPollKeepsSeparated(cfg: Config, w: World, now: Time, api: Cluster, order: seq<string>,
                                room: map<string, nat>)
    requires Separated(w) && Can(cfg, w, BeginPoll(now, api, order, room))
    ensures Separated(StartPoll(cfg, w, now, api, order, room))
  {
    hide Gated, CopyAll, StoredValues, Values, Prior, SamplesOf;
    var v := StartPoll(cfg, w, now, api, order, room);
    StateIsInBounds(w);
    CopyIsPrivate(w.heap, w.observations, order, room, w.poll + 1);
    CopyHasPriorValues(w.heap, w.observations, order, room, w.poll + 1);
    assert Extends(w.heap, v.heap);
    forall i | 0 <= i < |v.checkers| ensures Contained(v, v.checkers[i]) {
      assert Contained(w, w.checkers[i]);
      assert Settled(w, v.checkers[i].snapshot);
    }
    StaysFenced(w, v);
  }

  lemma SpawnKeepsSeparated(cfg: Config, w: World, job: Job)
    requires Separated(w) && Can(cfg, w, Spawn(job))
    ensures Separated(TakeTurn(cfg, w, Spawn(job)))
  {
    var v := TakeTurn(cfg, w, Spawn(job));
    forall i | 0 <= i < |v.checkers| ensures Contained(v, v.checkers[i]) {
      if i < |w.checkers| { assert Contained(w, w.checkers[i]); }
    }
    StaysFenced(w, v);
  }
  
  lemma TimeoutKeepsSeparated(cfg: Config, w: World)
    requires Separated(w) && Can(cfg, w, ListingTimeout)
    ensures Separated(TakeTurn(cfg, w, ListingTimeout))
  {
    var v := TakeTurn(cfg, w, ListingTimeout);
    forall i | 0 <= i < |v.checkers| ensures Contained(v, v.checkers[i]) {
      assert Contained(w, w.checkers[i]);
    }
    StaysFenced(w, v);
  }

  /** Main goroutine turns that touch only m.state. */
  lemma SameGoroutines(w: World, v: World)
    requires Separated(w)
    requires v == w.(main := v.main, observations := v.observations, results := v.results, phase := v.phase)
    requires CellsFenced(w, v.observations) && PhaseOk(v)
    ensures Separated(v)
  {
    forall i | 0 <= i < |v.checkers| ensures Contained(v, v.checkers[i]) {
      assert Contained(w, w.checkers[i]);
    }
    forall k | k in v.observations && v.observations[k].Some? ensures Fenced(v, v.observations[k].value.samples) {
      assert Fenced(w, v.observations[k].value.samples);
    }
  }

  /** The slices that a finished check sends have no other writer. */
  lemma SentAreFenced(w: World, c: Checker)
    requires Contained(w, c) && Finished(c) && c.poll == w.poll && Exclusive(w) && c in w.checkers
    ensures forall k :: k in SentCells(c) ==> Fenced(w, SentCells(c)[k].samples)
  {
    if c.job.Usage? {
      assert NoWriter(w, w.poll);
    }
  }

  lemma AcceptKeepsSeparated(cfg: Config, w: World)
    requires Separated(w) && Can(cfg, w, AcceptResult)
    ensures Separated(TakeTurn(cfg, w, AcceptResult))
  {
    var v := TakeTurn(cfg, w, AcceptResult);
    var c := w.checkers[w.phase.checker];
    assert Contained(w, c);
    SentAreFenced(w, c);
    assert v.main.clock == w.main.clock;
    hide Apply, Fenced, SentValue, SentCells, Contained, Finished;
    MergedAreFenced(w, w.observations, SentCells(c));
    SameGoroutines(w, v);
  }

  lemma MergedAreFenced(w: World, cells: map<string, Option<Cell>>, sent: map<string, Cell>)
    requires CellsFenced(w, cells) && forall k :: k in sent ==> Fenced(w, sent[k].samples)
    ensures CellsFenced(w, cells + map k | k in sent :: Some(sent[k]))
  {
    hide Fenced;
  }

  lemma MainKeepsSeparated(cfg: Config, w: World, t: Turn)
    requires Separated(w) && Can(cfg, w, t) && OfMain(t)
    ensures Separated(TakeTurn(cfg, w, t))
  {
    match t
    case BeginPoll(now, api, order, room) => StartPollKeepsSeparated(cfg, w, now, api, order, room);
    case ListingTimeout => TimeoutKeepsSeparated(cfg, w);
    case Spawn(job) => SpawnKeepsSeparated(cfg, w, job);
    case AcceptResult => AcceptKeepsSeparated(cfg, w);
    case _ => OwnTurnKeepsSeparated(cfg, w, t);
  }

  lemma OwnTurnKeepsSeparated(cfg: Config, w: World, t: Turn)
    requires Separated(w) && Can(cfg, w, t) && (t.ListingDone? || t.CheckTimeout? || t.Main?)
    ensures Separated(TakeTurn(cfg, w, t))
  {
    hide Apply, Enabled, Fenced, AllContained, Owned, Apart;
    if t.ListingDone? {
      assert Settled(w, w.snapshot);
    }
    SameGoroutines(w, TakeTurn(cfg, w, t));
  }

  // ----- turns of the other goroutines keep the separation -----

  lemma ListerKeepsSeparated(cfg: Config, w: World, j: nat)
    requires Separated(w) && Can(cfg, w, ListerMoves(j))
    ensures Separated(TakeTurn(cfg, w, ListerMoves(j)))
  {
    var v := TakeTurn(cfg, w, ListerMoves(j));
    forall i | 0 <= i < |v.checkers| ensures Contained(v, v.checkers[i]) {
      assert Contained(w, w.checkers[i]);
      assert Settled(v, w.checkers[i].snapshot);
    }
    StaysFenced(w, v);
  }

  lemma ReadKeepsSeparated(cfg: Config, w: World, j: nat)
    requires Separated(w) && j < |w.checkers| && w.checkers[j].snapshot < |w.snapshots| && !Finished(w.checkers[j])
    ensures Separated(ReadField(w, j))
  {
    var v := ReadField(w, j);
    forall i | 0 <= i < |v.checkers| ensures Contained(v, v.checkers[i]) {
      assert Contained(w, w.checkers[i]);
    }
    StaysFenced(w, v);
  }

  /** A sample changes only arrays of the checker's poll, keeps owners and sizes, and leaves the prior values
      readable as they were. */
  lemma SampleMeaning(w: World, c: Checker, s: Sample, spare: nat)
    requires Contained(w, c)
    ensures var (heap, cell) := SampledCell(w.heap, c.now, c.prior, s, spare, c.poll);
      && SameOwners(w.heap, heap, c.poll)
      && (forall i :: 0 <= i < |w.heap| && w.heap[i].poll != c.poll ==> heap[i] == w.heap[i])
      && Values(heap, c.prior) == Values(w.heap, c.prior)
      && InBounds(heap, cell.samples) && (cell.samples.Slice? ==> heap[cell.samples.base].poll == c.poll)
      && (forall k :: k in c.prior && SameArray(cell.samples, c.prior[k].samples) ==> k == MemoryKey(s.pod))
      && ValueOf(heap, cell) == Sampled(c.now, Values(w.heap, c.prior), s)
  {
    SampleOwns(w, c, s, spare);
    PriorIsReadable(w, c, s, spare);
    SampleValue(w, c, s, spare);
  }

  lemma SampleOwns(w: World, c: Checker, s: Sample, spare: nat)
    requires Owned(w.heap, c.prior, c.poll) && Apart(c.prior, c.prior)
    ensures var (heap, cell) := SampledCell(w.heap, c.now, c.prior, s, spare, c.poll);
      && SameOwners(w.heap, heap, c.poll)
      && (forall i :: 0 <= i < |w.heap| && w.heap[i].poll != c.poll ==> heap[i] == w.heap[i])
      && (cell.samples.Slice? ==> cell.samples.base < |heap| && heap[cell.samples.base].poll == c.poll)
      && (forall k :: k in c.prior && SameArray(cell.samples, c.prior[k].samples) ==> k == MemoryKey(s.pod))
  {
    var obs := BaseCell(c.now, c.prior, s);
    BaseCellMeaning(w.heap, c, s);
    AppendMeaning(w.heap, obs.samples, s.percent, spare, c.poll);
    AppendKeeps(w.heap, obs.samples, s.percent, spare, c.poll);
  }

  lemma PriorIsReadable(w: World, c: Checker, s: Sample, spare: nat)
    requires Owned(w.heap, c.prior, c.poll) && Apart(c.prior, c.prior)
    ensures var (heap, cell) := SampledCell(w.heap, c.now, c.prior, s, spare, c.poll);
      Values(heap, c.prior) == Values(w.heap, c.prior)
  {
    var obs := BaseCell(c.now, c.prior, s);
    BaseCellMeaning(w.heap, c, s);
    var (heap, slice) := Append(w.heap, obs.samples, s.percent, spare, c.poll);
    forall k | k in c.prior ensures ValueOf(heap, c.prior[k]) == ValueOf(w.heap, c.prior[k]) {
      AppendFrame(w.heap, obs.samples, s.percent, spare, c.poll, c.prior[k].samples);
    }
  }

  lemma SampleValue(w: World, c: Checker, s: Sample, spare: nat)
    requires Owned(w.heap, c.prior, c.poll) && Apart(c.prior, c.prior)
    ensures var (heap, cell) := SampledCell(w.heap, c.now, c.prior, s, spare, c.poll);
      InBounds(heap, cell.samples) && ValueOf(heap, cell) == Sampled(c.now, Values(w.heap, c.prior), s)
  {
    var obs := BaseCell(c.now, c.prior, s);
    BaseCellMeaning(w.heap, c, s);
    AppendMeaning(w.heap, obs.samples, s.percent, spare, c.poll);
    var (heap, slice) := Append(w.heap, obs.samples, s.percent, spare, c.poll);
    ResliceMeaning(heap, slice);
  }

  lemma BaseCellMeaning(heap: seq<Array>, c: Checker, s: Sample)
    requires Owned(heap, c.prior, c.poll) && Apart(c.prior, c.prior)
    ensures var obs := BaseCell(c.now, c.prior, s);
      && InBounds(heap, obs.samples) && (obs.samples.Slice? ==> heap[obs.samples.base].poll == c.poll)
      && (forall k :: k in c.prior && SameArray(obs.samples, c.prior[k].samples) ==>
        c.prior[k].samples == obs.samples && k == MemoryKey(s.pod))
      && (forall k :: k in c.prior && c.prior[k].samples.Slice? ==> InBounds(heap, c.prior[k].samples))
      && ValueOf(heap, obs)
        == (if MemoryKey(s.pod) in c.prior then Values(heap, c.prior)[MemoryKey(s.pod)]
          else Observation(0, c.now, [], ZERO_TIME))
  {
  }

  lemma ResliceMeaning(heap: seq<Array>, s: Slice)
    requires InBounds(heap, s)
    ensures Read(heap, Reslice(s, SAMPLE_WINDOW)) == LastN(Read(heap, s), SAMPLE_WINDOW)
    ensures InBounds(heap, Reslice(s, SAMPLE_WINDOW))
  {
  }

  /** Nothing shrinks, owners stay, and new arrays belong to this poll. */
  ghost predicate SameOwners(heap: seq<Array>, h: seq<Array>, poll: nat) {
    && |heap| <= |h| && (forall i :: |heap| <= i < |h| ==> h[i].poll == poll)
    && (forall i :: 0 <= i < |heap| ==> h[i].poll == heap[i].poll && |h[i].cells| == |heap[i].cells|)
  }

  lemma OwnersStay(heap: seq<Array>, h: seq<Array>, poll: nat, cells: map<string, Cell>, owner: nat)
    requires SameOwners(heap, h, poll) && Owned(heap, cells, owner)
    ensures Owned(h, cells, owner)
  {
  }

  lemma SampleKeepsContained(cfg: Config, w: World, j: nat, spare: nat, i: nat)
    requires AllContained(w) && j < |w.checkers| && w.checkers[j].sampled < |SamplesOf(w.checkers[j])|
    requires i < |w.checkers|
    ensures var v := HandleSample(cfg, w, j, spare); Contained(v, v.checkers[i])
  {
    var v := HandleSample(cfg, w, j, spare);
    var c, x := w.checkers[j], w.checkers[i];
    assert Contained(w, c) && Contained(w, x);
    SampleMeaning(w, c, SamplesOf(c)[c.sampled], spare);
    OwnersStay(w.heap, v.heap, c.poll, x.prior, x.poll);
    OwnersStay(w.heap, v.heap, c.poll, x.delta, x.poll);
    assert Settled(v, x.snapshot);
  }

  lemma SampleKeepsSeparated(cfg: Config, w: World, j: nat, spare: nat)
    requires Separated(w) && j < |w.checkers| && w.checkers[j].sampled < |SamplesOf(w.checkers[j])|
    requires !Finished(w.checkers[j])
    ensures Separated(HandleSample(cfg, w, j, spare))
  {
    var v := HandleSample(cfg, w, j, spare);
    var c := w.checkers[j];
    assert Contained(w, c);
    forall i | 0 <= i < |v.checkers| ensures Contained(v, v.checkers[i]) {
      SampleKeepsContained(cfg, w, j, spare, i);
    }
    SampleMeaning(w, c, SamplesOf(c)[c.sampled], spare);
    OwnersStay(w.heap, v.heap, c.poll, w.prior, w.poll);
    StaysFenced(w, v);
    assert PhaseOk(v) by {
      if v.phase.AtWork? || v.phase.Waiting? { assert Settled(w, w.snapshot); }
    }
  }

  lemma TurnKeepsSeparated(cfg: Config, w: World, t: Turn)
    requires Separated(w) && Can(cfg, w, t)
    ensures Separated(TakeTurn(cfg, w, t))
  {
    if OfMain(t) {
      MainKeepsSeparated(cfg, w, t);
    } else if t.ListerMoves? {
      ListerKeepsSeparated(cfg, w, t.lister);
    } else if w.checkers[t.checker].read < FIELDS {
      ReadKeepsSeparated(cfg, w, t.checker);
    } else {
      SampleKeepsSeparated(cfg, w, t.checker, t.spare);
    }
  }

  lemma {:induction false} RunKeepsSeparated(cfg: Config, w: World, turns: seq<Turn>)
    requires Fresh(w) && Legal(cfg, w, turns)
    ensures Separated(Reached(cfg, w, turns))
  {
    if turns != [] {
      RunKeepsSeparated(cfg, w, Init(turns));
      TurnKeepsSeparated(cfg, Reached(cfg, w, Init(turns)), Last(turns));
    }
  }

  // ----- the two programs agree -----

  /** How far a check has come, in terms of what it would compute alone. */
  ghost predicate OnCourse(cfg: Config, heap: seq<Array>, c: Checker, listing: Cluster,
                           prior: map<string, Observation>) {
    && c.seen == Prefix(c.read, listing)
    && c.sampled <= |SamplesOf(c)|
    && (if c.read < FIELDS then c.sampled == 0 && c.delta == map[] && c.findings == []
        else if c.job.Usage? then
          && Values(heap, c.delta) == MemoryDelta(c.now, prior, SamplesOf(c)[..c.sampled])
          && c.findings == UsageFindings(cfg, c.now, prior, SamplesOf(c)[..c.sampled])
        else true)
  }

  ghost predicate PhasesAgree(cfg: Config, w: World, s: Alone) {
    match w.phase
    case Idle => true
    case Listing(i) =>
      && i < |w.listers| && w.listers[i].answers == Gated(cfg.checks, s.api) && w.snapshot < |w.snapshots|
      && w.snapshots[w.snapshot] == Prefix(w.listers[i].written, w.listers[i].answers)
    case AtWork => w.snapshot < |w.snapshots| && w.snapshots[w.snapshot] == s.listing
    case Waiting(i) =>
      && w.snapshot < |w.snapshots| && w.snapshots[w.snapshot] == s.listing
      && i < |w.checkers| && s.job == Some(w.checkers[i].job)
      && OnCourse(cfg, w.heap, w.checkers[i], s.listing, s.prior)
  }

  /** The main goroutine cannot tell the difference. */
  ghost predicate Same(cfg: Config, w: World, s: Alone) {
    && Seen(w) == s.m && w.results == s.results
    && (w.phase.Idle? || Values(w.heap, w.prior) == s.prior)
    && PhasesAgree(cfg, w, s)
  }

  lemma StateIsInBounds(w: World)
    requires StateFenced(w)
    ensures AllInBounds(w.heap, w.observations)
  {
    forall k | k in w.observations && w.observations[k].Some?
      ensures InBounds(w.heap, w.observations[k].value.samples) {
      assert Fenced(w, w.observations[k].value.samples);
    }
  }

  lemma StartPollCopies(cfg: Config, w: World, now: Time, api: Cluster, order: seq<string>, room: map<string, nat>)
    requires Separated(w) && Can(cfg, w, BeginPoll(now, api, order, room))
    ensures var v := StartPoll(cfg, w, now, api, order, room);
      && Values(v.heap, v.prior) == Prior(StoredValues(w.heap, w.observations))
      && StoredValues(v.heap, v.observations) == StoredValues(w.heap, w.observations)
  {
    StateIsInBounds(w);
    hide Gated, CopyAll, Private;
    CopyIsPrivate(w.heap, w.observations, order, room, w.poll + 1);
    CopyHasPriorValues(w.heap, w.observations, order, room, w.poll + 1);
    StoredStay(w, CopyAll(w.heap, w.observations, order, room, w.poll + 1).0);
  }

  lemma StartPollAgrees(cfg: Config, w: World, s: Alone, t: Turn)
    requires Separated(w) && Same(cfg, w, s) && Can(cfg, w, t) && t.BeginPoll?
    ensures Same(cfg, TakeTurn(cfg, w, t), AloneTurn(cfg, s, t))
  {
    StartPollCopies(cfg, w, t.now, t.api, t.order, t.room);
    hide Separated, Gated, CopyAll, StoredValues, Values, Prior;
    assert Prefix(0, Gated(cfg.checks, t.api)) == NOTHING_LISTED;
  }

  /** What m.state reads is the same in any heap that keeps the arrays it can reach. */
  lemma StoredStay(w: World, h: seq<Array>)
    requires StateFenced(w)
    requires |w.heap| <= |h|
    requires forall i :: 0 <= i < |w.heap| && h[i] != w.heap[i] ==> !NoWriter(w, w.heap[i].poll)
    ensures StoredValues(h, w.observations) == StoredValues(w.heap, w.observations)
  {
    forall k | k in w.observations ensures StoredValue(h, w.observations[k]) == StoredValue(w.heap, w.observations[k]) {
      if w.observations[k].Some? { assert Fenced(w, w.observations[k].value.samples); }
    }
  }

  /** A finished check sends what it would have returned alone. */
  lemma FinishedIsPure(cfg: Config, w: World, c: Checker, listing: Cluster, prior: map<string, Observation>)
    requires Finished(c) && c.read >= FIELDS && OnCourse(cfg, w.heap, c, listing, prior)
    requires Values(w.heap, c.prior) == prior
    ensures SentValue(w.heap, c) == Pure(cfg, c.job, c.now, listing, prior)
  {
    assert c.seen == listing;
    if c.job.Usage? {
      var samples := SamplesOf(c);
      assert samples[..c.sampled] == samples;
    } else {
      SameScalars(w.heap, c.prior);
      var a := c.job.answer(c.seen, CellScalars(c.prior));
      assert Values(w.heap, SentCells(c)) == Pure(cfg, c.job, c.now, listing, prior).observations;
    }
  }

  lemma SameScalars(heap: seq<Array>, prior: map<string, Cell>)
    ensures CellScalars(prior) == ScalarsOf(Values(heap, prior))
  {
  }

  lemma TakeAgrees(cfg: Config, w: World, s: Alone, r: CheckResult, cells: map<string, Cell>)
    requires Same(cfg, w, s) && w.phase.Waiting? && r.observations == Values(w.heap, cells)
    ensures Same(cfg, Take(cfg, w, r, cells), Collect(cfg, s, r))
  {
    hide Apply, StoredValues, Merged, Values, OnCourse;
    var v := Take(cfg, w, r, cells);
    var m := Apply(cfg, Seen(w), Accept(r.observations, r.complete));
    AcceptMerges(cfg, Seen(w), r);
    StoredMerge(w.heap, w.observations, cells);
    SeenAs(v, m);
  }

  lemma StoredMerge(heap: seq<Array>, observations: map<string, Option<Cell>>, cells: map<string, Cell>)
    ensures StoredValues(heap, observations + map k | k in cells :: Some(cells[k]))
         == Merged(StoredValues(heap, observations), Values(heap, cells))
  {
    hide ValueOf;
  }

  lemma AcceptMerges(cfg: Config, m: Machine, r: CheckResult)
    ensures Apply(cfg, m, Accept(r.observations, r.complete)).state.observations
      == Merged(m.state.observations, r.observations)
  {
  }

  lemma MainAgrees(cfg: Config, w: World, s: Alone, t: Turn)
    requires Separated(w) && Same(cfg, w, s) && Can(cfg, w, t) && OfMain(t)
    ensures Same(cfg, TakeTurn(cfg, w, t), AloneTurn(cfg, s, t))
  {
    match t
    case BeginPoll(now, api, order, room) => StartPollAgrees(cfg, w, s, t);
    case ListingDone =>
    case ListingTimeout =>
    case Spawn(job) =>
    case AcceptResult =>
      var c := w.checkers[w.phase.checker];
      assert Contained(w, c);
      FinishedIsPure(cfg, w, c, s.listing, s.prior);
      TakeAgrees(cfg, w, s, SentValue(w.heap, c), SentCells(c));
    case CheckTimeout =>
      assert Values(w.heap, map[]) == map[];
      TakeAgrees(cfg, w, s, EMPTY_RESULT, map[]);
    case Main(step) => StepAgrees(cfg, w, s, step);
  }

  lemma StepAgrees(cfg: Config, w: World, s: Alone, step: Step)
    requires Separated(w) && Same(cfg, w, s) && Can(cfg, w, Main(step))
    ensures Same(cfg, TakeTurn(cfg, w, Main(step)), AloneTurn(cfg, s, Main(step)))
  {
    hide Apply, Enabled;
    var v := TakeTurn(cfg, w, Main(step));
    var m := Apply(cfg, Seen(w), step);
    OnlyDeletes(cfg, Seen(w), step);
    assert StoredValues(v.heap, v.observations) == m.state.observations;
    SeenAs(v, m);
  }

  lemma SeenAs(w: World, m: Machine)
    requires w.main == m && StoredValues(w.heap, w.observations) == m.state.observations
    ensures Seen(w) == m
  {
  }

  /** Between Begin and Accept, the main goroutine only deletes observations. */
  lemma OnlyDeletes(cfg: Config, m: Machine, step: Step)
    requires !step.Accept?
    ensures var after := Apply(cfg, m, step).state.observations;
      forall k :: k in after ==> k in m.state.observations && after[k] == m.state.observations[k]
  {
  }

  lemma ListerAgrees(cfg: Config, w: World, s: Alone, j: nat)
    requires Separated(w) && Same(cfg, w, s) && Can(cfg, w, ListerMoves(j))
    ensures Same(cfg, TakeTurn(cfg, w, ListerMoves(j)), s)
  {
    if w.phase.AtWork? || w.phase.Waiting? {
      assert Settled(w, w.snapshot);
    }
  }

  lemma ReadAgrees(cfg: Config, w: World, s: Alone, j: nat)
    requires Separated(w) && Same(cfg, w, s) && j < |w.checkers| && w.checkers[j].snapshot < |w.snapshots|
    requires w.checkers[j].read < FIELDS
    ensures Same(cfg, ReadField(w, j), s)
  {
    var v := ReadField(w, j);
    if w.phase.Waiting? && w.phase.checker == j {
      var c := v.checkers[j];
      assert c.seen == Prefix(c.read, s.listing);
      assert SamplesOf(c)[..0] == [];
    }
  }

  lemma SampleAgrees(cfg: Config, w: World, s: Alone, j: nat, spare: nat)
    requires Separated(w) && Same(cfg, w, s)
    requires j < |w.checkers| && w.checkers[j].sampled < |SamplesOf(w.checkers[j])| && w.checkers[j].read >= FIELDS
    ensures Same(cfg, HandleSample(cfg, w, j, spare), s)
  {
    var v := HandleSample(cfg, w, j, spare);
    var c := w.checkers[j];
    assert Contained(w, c);
    SampleMeaning(w, c, SamplesOf(c)[c.sampled], spare);
    assert !NoWriter(w, c.poll);
    StoredStay(w, v.heap);
    PriorStays(w, c, v.heap);
    if w.phase.Waiting? && w.phase.checker == j {
      OwnSampleOnCourse(cfg, w, s, j, spare);
    } else if w.phase.Waiting? {
      OtherSampleOnCourse(cfg, w, s, j, spare);
    }
  }

  lemma OtherSampleOnCourse(cfg: Config, w: World, s: Alone, j: nat, spare: nat)
    requires Separated(w) && Same(cfg, w, s) && w.phase.Waiting? && w.phase.checker != j
    requires j < |w.checkers| && w.checkers[j].sampled < |SamplesOf(w.checkers[j])| && w.checkers[j].read >= FIELDS
    ensures OnCourse(cfg, HandleSample(cfg, w, j, spare).heap, w.checkers[w.phase.checker], s.listing, s.prior)
  {
    var v := HandleSample(cfg, w, j, spare);
    var c, x := w.checkers[j], w.checkers[w.phase.checker];
    assert Contained(w, c) && Contained(w, x);
    SampleMeaning(w, c, SamplesOf(c)[c.sampled], spare);
    if x.job.Usage? {
      assert c.poll != x.poll;
      forall k | k in x.delta ensures ValueOf(v.heap, x.delta[k]) == ValueOf(w.heap, x.delta[k]) { }
      assert Values(v.heap, x.delta) == Values(w.heap, x.delta);
    }
  }

  lemma PriorStays(w: World, c: Checker, h: seq<Array>)
    requires Owned(w.heap, w.prior, w.poll) && SameOwners(w.heap, h, c.poll)
    requires c.poll == w.poll ==> c.prior == w.prior
    requires forall i :: 0 <= i < |w.heap| && w.heap[i].poll != c.poll ==> h[i] == w.heap[i]
    requires Values(h, c.prior) == Values(w.heap, c.prior)
    ensures Values(h, w.prior) == Values(w.heap, w.prior)
  {
    if c.poll != w.poll {
      forall k | k in w.prior ensures ValueOf(h, w.prior[k]) == ValueOf(w.heap, w.prior[k]) { }
    }
  }

  /** The next sample of a check, given what it appended means. */
  lemma OneMoreSample(cfg: Config, heap: seq<Array>, h: seq<Array>, c: Checker, cell: Cell, listing: Cluster,
                      prior: map<string, Observation>)
    requires OnCourse(cfg, heap, c, listing, prior) && c.read >= FIELDS && c.sampled < |SamplesOf(c)|
    requires ValueOf(h, cell) == Sampled(c.now, prior, SamplesOf(c)[c.sampled])
    requires forall k :: k in c.delta && k != MemoryKey(SamplesOf(c)[c.sampled].pod) ==>
      ValueOf(h, c.delta[k]) == ValueOf(heap, c.delta[k])
    ensures OnCourse(cfg, h, Handled(cfg, h, c, cell), listing, prior)
  {
    hide MemoryKey, Sampled, UsageFinding, Read, MemoryDelta, UsageFindings, Prefix;
    var samples, n := SamplesOf(c), c.sampled;
    var key, c' := MemoryKey(samples[n].pod), Handled(cfg, h, c, cell);
    NextSample(cfg, c.now, prior, samples, n);
    assert SamplesOf(c') == samples;
    assert Values(h, c'.delta) == Values(heap, c.delta)[key := ValueOf(h, cell)];
  }

  lemma NextSample(cfg: Config, now: Time, prior: map<string, Observation>, samples: seq<Sample>, n: nat)
    requires n < |samples|
    ensures MemoryDelta(now, prior, samples[..n + 1])
         == MemoryDelta(now, prior, samples[..n])[MemoryKey(samples[n].pod) := Sampled(now, prior, samples[n])]
    ensures UsageFindings(cfg, now, prior, samples[..n + 1])
         == UsageFindings(cfg, now, prior, samples[..n])
            + UsageFinding(cfg, samples[n], Sampled(now, prior, samples[n]).memorySamples)
  {
    assert Init(samples[..n + 1]) == samples[..n] && Last(samples[..n + 1]) == samples[n];
  }

  lemma OwnSampleOnCourse(cfg: Config, w: World, s: Alone, j: nat, spare: nat)
    requires Separated(w) && Same(cfg, w, s) && w.phase == Waiting(j) && j < |w.checkers|
    requires w.checkers[j].sampled < |SamplesOf(w.checkers[j])| && w.checkers[j].read >= FIELDS
    ensures var v := HandleSample(cfg, w, j, spare); OnCourse(cfg, v.heap, v.checkers[j], s.listing, s.prior)
  {
    var c := w.checkers[j];
    assert Contained(w, c);
    hide Contained, Separated, SampledCell, Sampled, MemoryKey, OnCourse, UsageFinding;
    SampleMeaning(w, c, SamplesOf(c)[c.sampled], spare);
    OtherDeltasStay(w, c, SamplesOf(c)[c.sampled], spare);
    var (heap, cell) := SampledCell(w.heap, c.now, c.prior, SamplesOf(c)[c.sampled], spare, c.poll);
    OneMoreSample(cfg, w.heap, heap, c, cell, s.listing, s.prior);
  }

  /** An append in place overwrites at most the entry of its own key. */
  lemma OtherDeltasStay(w: World, c: Checker, s: Sample, spare: nat)
    requires Contained(w, c)
    ensures var (heap, cell) := SampledCell(w.heap, c.now, c.prior, s, spare, c.poll);
      forall k :: k in c.delta && k != MemoryKey(s.pod) ==> ValueOf(heap, c.delta[k]) == ValueOf(w.heap, c.delta[k])
  {
    var obs := BaseCell(c.now, c.prior, s);
    forall k | k in c.delta && k != MemoryKey(s.pod)
      ensures var (heap, cell) := SampledCell(w.heap, c.now, c.prior, s, spare, c.poll);
        ValueOf(heap, c.delta[k]) == ValueOf(w.heap, c.delta[k])
    {
      AppendFrame(w.heap, obs.samples, s.percent, spare, c.poll, c.delta[k].samples);
    }
  }

  lemma TurnAgrees(cfg: Config, w: World, s: Alone, t: Turn)
    requires Separated(w) && Same(cfg, w, s) && Can(cfg, w, t)
    ensures Same(cfg, TakeTurn(cfg, w, t), if OfMain(t) then AloneTurn(cfg, s, t) else s)
  {
    if OfMain(t) {
      MainAgrees(cfg, w, s, t);
    } else if t.ListerMoves? {
      ListerAgrees(cfg, w, s, t.lister);
    } else if w.checkers[t.checker].read < FIELDS {
      ReadAgrees(cfg, w, s, t.checker);
    } else {
      SampleAgrees(cfg, w, s, t.checker, t.spare);
    }
  }

  /** Every interleaving: m.state, everything sent and every accepted result are those of the main loop running
      alone on the same answers, where each check that timed out returned an empty incomplete result. */
  lemma {:induction false} Isolation(cfg: Config, w: World, turns: seq<Turn>)
    requires Fresh(w) && Legal(cfg, w, turns)
    ensures Same(cfg, Reached(cfg, w, turns), RunAlone(cfg, AloneFrom(Seen(w)), MainTurns(turns)))
  {
    if turns != [] {
      hide Same, AloneTurn, TakeTurn, Can, Seen, Separated, Fresh, Apply;
      var init, t := Init(turns), Last(turns);
      Isolation(cfg, w, init);
      RunKeepsSeparated(cfg, w, init);
      TurnAgrees(cfg, Reached(cfg, w, init), RunAlone(cfg, AloneFrom(Seen(w)), MainTurns(init)), t);
      if OfMain(t) {
        assert MainTurns(turns) == MainTurns(init) + [t];
        assert Init(MainTurns(turns)) == MainTurns(init) && Last(MainTurns(turns)) == t;
      } else {
        assert MainTurns(turns) == MainTurns(init) + [];
        assert MainTurns(turns) == MainTurns(init);
      }
    }
  }

  /** From u to v the main goroutine's own variables, every array that m.state can reach, every snapshot that
      some check reads and the snapshot that the main loop has taken are unchanged. */
  ghost predicate Unaffected(u: World, v: World) {
    && v.observations == u.observations && v.main == u.main && v.results == u.results
    && (forall k :: k in u.observations && u.observations[k].Some? && u.observations[k].value.samples.Slice? ==>
          var a := u.observations[k].value.samples.base; a < |u.heap| && a < |v.heap| && v.heap[a] == u.heap[a])
    && (forall i :: 0 <= i < |u.checkers| ==>
          var n := u.checkers[i].snapshot; n < |u.snapshots| && n < |v.snapshots| && v.snapshots[n] == u.snapshots[n])
    && (u.phase.AtWork? ==>
          u.snapshot < |u.snapshots| && u.snapshot < |v.snapshots|
            && v.snapshots[u.snapshot] == u.snapshots[u.snapshot])
  }

  /** No step of a listing or check goroutine, abandoned or not, has an effect that the main loop or another
      check can see. */
  lemma GoroutinesCannotReachState(cfg: Config, w: World, turns: seq<Turn>)
    requires Fresh(w) && Legal(cfg, w, turns) && turns != [] && !OfMain(Last(turns))
    ensures Unaffected(Reached(cfg, w, Init(turns)), Reached(cfg, w, turns))
  {
    hide Apply, Enabled, Fresh, Unaffected, Can, TakeTurn;
    RunKeepsSeparated(cfg, w, Init(turns));
    OneCannotReachState(cfg, Reached(cfg, w, Init(turns)), Last(turns));
  }

  lemma OneCannotReachState(cfg: Config, u: World, t: Turn)
    requires Separated(u) && Can(cfg, u, t) && !OfMain(t)
    ensures Unaffected(u, TakeTurn(cfg, u, t))
  {
    if t.ListerMoves? {
      ListerUnaffects(cfg, u, t.lister);
    } else {
      CheckerUnaffects(cfg, u, t.checker, t.spare);
    }
  }

  lemma ListerUnaffects(cfg: Config, u: World, j: nat)
    requires Separated(u) && Can(cfg, u, ListerMoves(j))
    ensures Unaffected(u, TakeTurn(cfg, u, ListerMoves(j)))
  {
    hide Owned, Apart, NoWriter;
    forall i | 0 <= i < |u.checkers|
      ensures u.checkers[i].snapshot < |u.snapshots| && Settled(u, u.checkers[i].snapshot) {
      assert Contained(u, u.checkers[i]);
    }
    forall k | k in u.observations && u.observations[k].Some?
      ensures InBounds(u.heap, u.observations[k].value.samples) {
      assert Fenced(u, u.observations[k].value.samples);
    }
  }

  lemma CheckerUnaffects(cfg: Config, u: World, j: nat, spare: nat)
    requires Separated(u) && Can(cfg, u, CheckerMoves(j, spare))
    ensures Unaffected(u, TakeTurn(cfg, u, CheckerMoves(j, spare)))
  {
    var v := TakeTurn(cfg, u, CheckerMoves(j, spare));
    assert v.observations == u.observations && v.main == u.main && v.results == u.results && v.snapshots == u.snapshots;
    CheckerWritesOwnPoll(cfg, u, j, spare);
    hide TakeTurn, Can, Apart, Owned, Exclusive, Settled;
    forall i | 0 <= i < |u.checkers| ensures u.checkers[i].snapshot < |u.snapshots| {
      assert Contained(u, u.checkers[i]);
    }
    forall k | k in u.observations && u.observations[k].Some? && u.observations[k].value.samples.Slice?
      ensures var a := u.observations[k].value.samples.base; a < |u.heap| && a < |v.heap| && v.heap[a] == u.heap[a]
    {
      assert Fenced(u, u.observations[k].value.samples);
    }
  }

  lemma CheckerWritesOwnPoll(cfg: Config, u: World, j: nat, spare: nat)
    requires Separated(u) && Can(cfg, u, CheckerMoves(j, spare))
    ensures var v := TakeTurn(cfg, u, CheckerMoves(j, spare));
      |u.heap| <= |v.heap| && forall a :: 0 <= a < |u.heap| && v.heap[a] != u.heap[a] ==> !NoWriter(u, u.heap[a].poll)
  {
    var c := u.checkers[j];
    if c.read >= FIELDS {
      assert Contained(u, c);
      SampleMeaning(u, c, SamplesOf(c)[c.sampled], spare);
      assert !NoWriter(u, c.poll);
    }
  }

  // ----- what it means for the protocol -----

  lemma TurnIsStep(cfg: Config, w: World, s: Alone, t: Turn, start: Machine)
    requires Same(cfg, w, s) && Can(cfg, w, t) && OfMain(t)
    requires Valid(cfg, start, s.steps) && Run(cfg, start, s.steps) == s.m
    ensures var r := AloneTurn(cfg, s, t); Valid(cfg, start, r.steps) && Run(cfg, start, r.steps) == r.m
  {
    hide Apply, Same;
    match t
    case BeginPoll(now, api, _, _) => RunOne(cfg, start, s.steps, Begin(now));
    case ListingDone =>
    case ListingTimeout =>
    case Spawn(job) =>
    case AcceptResult =>
      if s.job.Some? {
        var r := Pure(cfg, s.job.value, s.m.clock, s.listing, s.prior);
        RunOne(cfg, start, s.steps, Accept(r.observations, r.complete));
      }
    case CheckTimeout => RunOne(cfg, start, s.steps, Accept(EMPTY_RESULT.observations, EMPTY_RESULT.complete));
    case Main(step) =>
      SameMain(cfg, w, s);
      RunOne(cfg, start, s.steps, step);
  }

  lemma SameMain(cfg: Config, w: World, s: Alone)
    requires Same(cfg, w, s)
    ensures Seen(w) == s.m && w.results == s.results
  {
  }

  /** So every interleaving is a run of the protocol, and whatever runs keep, interleavings keep. */
  lemma {:induction false} InterleavingsAreRuns(cfg: Config, w: World, turns: seq<Turn>)
    requires Fresh(w) && Legal(cfg, w, turns)
    ensures var s := RunAlone(cfg, AloneFrom(Seen(w)), MainTurns(turns));
      && Valid(cfg, Seen(w), s.steps)
      && Seen(Reached(cfg, w, turns)) == Run(cfg, Seen(w), s.steps)
      && Reached(cfg, w, turns).results == s.results
  {
    if turns != [] {
      hide Same, AloneTurn, TakeTurn, Can, Seen, Separated, Fresh, Apply, Valid, Run;
      var init, t := Init(turns), Last(turns);
      InterleavingsAreRuns(cfg, w, init);
      Isolation(cfg, w, init);
      Isolation(cfg, w, turns);
      var s := RunAlone(cfg, AloneFrom(Seen(w)), MainTurns(init));
      SameMain(cfg, Reached(cfg, w, init), s);
      SameMain(cfg, Reached(cfg, w, turns), RunAlone(cfg, AloneFrom(Seen(w)), MainTurns(turns)));
      if OfMain(t) {
        assert MainTurns(turns) == MainTurns(init) + [t];
        assert Init(MainTurns(turns)) == MainTurns(init) && Last(MainTurns(turns)) == t;
        TurnIsStep(cfg, Reached(cfg, w, init), s, t, Seen(w));
      } else {
        assert MainTurns(turns) == MainTurns(init) + [];
        assert MainTurns(turns) == MainTurns(init);
      }
    }
  }

  /** In particular the consumer stays informed whatever the goroutines do. */
  lemma InterleavingsKeepInformed(cfg: Config, w: World, turns: seq<Turn>)
    requires Fresh(w) && Seen(w) == FreshStart(cfg) && Legal(cfg, w, turns)
    ensures Informed(Seen(Reached(cfg, w, turns)))
  {
    InterleavingsAreRuns(cfg, w, turns);
    RunKeepsInformed(cfg, FreshStart(cfg), RunAlone(cfg, AloneFrom(Seen(w)), MainTurns(turns)).steps);
  }

  // ----- interleavings of whole polls -----

  /** The main loop's steps in this interleaving are these polls, scripted by the results it accepted. */
  ghost predicate Scripted(cfg: Config, w: World, turns: seq<Turn>, ps: seq<Poll>) {
    var s := RunAlone(cfg, AloneFrom(Seen(w)), MainTurns(turns));
    s.steps == AllSteps(ps) && s.results == AllResults(ps) && AllShaped(cfg, Seen(w), ps)
  }

  /** When each poll acts on the results it accepted, every interleaving is a run of polls with those results. */
  lemma InterleavingsArePolls(cfg: Config, w: World, turns: seq<Turn>, ps: seq<Poll>)
    requires Fresh(w) && Legal(cfg, w, turns) && Scripted(cfg, w, turns, ps)
    ensures ValidPolls(cfg, Seen(w), ps)
    ensures Seen(Reached(cfg, w, turns)) == RunPolls(cfg, Seen(w), ps)
    ensures Reached(cfg, w, turns).results == AllResults(ps)
  {
    InterleavingsAreRuns(cfg, w, turns);
    ShapedArePolls(cfg, Seen(w), ps);
  }

  /** Convergence under every interleaving: with room under the cap, a complete and acknowledged poll leaves the
      consumer with exactly the ids that the accepted results report. */
  lemma InterleavingsConverge(cfg: Config, w: World, turns: seq<Turn>, history: seq<Poll>, p: Poll)
    requires Fresh(w) && Seen(w) == FreshStart(cfg) && Legal(cfg, w, turns) && Scripted(cfg, w, turns, history + [p])
    requires Roomy(cfg, FreshStart(cfg), AllSteps(history))
    requires AllComplete(p.results) && AllAcked(p.reports) && AllAcked(p.resolves)
    ensures OngoingIds(Seen(Reached(cfg, w, turns)).log) == ReportedIds(p.suppressions, p.results)
  {
    InterleavingsArePolls(cfg, w, turns, history + [p]);
    Convergence.Convergence(cfg, history, p);
  }

  /** No premature resolution under any interleaving: the last poll resolves nothing if one of its checks timed
      out or was incomplete, and otherwise exactly the ongoing entries that its accepted results miss. */
  lemma InterleavingsResolveTheMissing(cfg: Config, w: World, turns: seq<Turn>, history: seq<Poll>, p: Poll)
    requires Fresh(w) && Legal(cfg, w, turns) && Scripted(cfg, w, turns, history + [p])
    ensures var m := RunPolls(cfg, Seen(w), history);
      ResolutionsFrom(Seen(Reached(cfg, w, turns)).log, |m.log|)
        == if AllComplete(p.results)
           then WithStatus(m.state.findings, Ongoing) - ReportedIds(p.suppressions, p.results) else {}
  {
    InterleavingsArePolls(cfg, w, turns, history + [p]);
    assert Init(history + [p]) == history && Last(history + [p]) == p;
    ResolvesExactlyTheMissing(cfg, RunPolls(cfg, Seen(w), history), p);
  }
}
