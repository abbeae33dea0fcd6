/** snapshot.go and runCheck: the main loop interleaved with listing and check goroutines that outlive their
    timeout. Every step of every goroutine is a turn of its own; between two turns any other may come. */
module Concurrency {
  import opened Base
  import opened Findings
  import opened States
  import opened Protocol
  import opened Listing
  import opened History
  import opened Memory

  // ----- what a check does -----

  /** The part of a prior observation that checks other than resource usage read and write. */
  datatype Scalars = Scalars(restartCount: int, lastSeen: Time)

  datatype Answer = Answer(findings: seq<Finding>, complete: bool, totals: map<string, Scalars>)

  /** Any check that is a function of the snapshot, or the usage check with the samples it derives from the
      metrics and the listed pods (None on an error). */
  datatype Job =
    | Plain(answer: (Cluster, map<string, Scalars>) -> Answer)
    | Usage(samples: Cluster -> Option<seq<Sample>>)

  function ScalarsOf(prior: map<string, Observation>): map<string, Scalars> {
    map k | k in prior :: Scalars(prior[k].restartCount, prior[k].lastSeen)
  }

  const EMPTY_RESULT := CheckResult([], false, map[])

  /** The check as a function: what it returns when nothing runs beside it. */
  function Pure(cfg: Config, job: Job, now: Time, listing: Cluster, prior: map<string, Observation>): CheckResult {
    match job
    case Plain(answer) =>
      var a := answer(listing, ScalarsOf(prior));
      CheckResult(a.findings, a.complete,
                  map k | k in a.totals :: Observation(a.totals[k].restartCount, a.totals[k].lastSeen, [], ZERO_TIME))
    case Usage(samples) =>
      var ss := samples(listing);
      if ss.None? then EMPTY_RESULT
      else CheckResult(UsageFindings(cfg, now, prior, ss.value), true, MemoryDelta(now, prior, ss.value))
  }

  // ----- the concurrent program -----

  const FIELDS: nat := 8

  /** A listing goroutine writes the answered fields into its snapshot, one by one. */
  datatype Lister = Lister(answers: Cluster, target: nat, written: nat)

  /** A check goroutine reads its snapshot field by field; the usage check then handles sample after sample,
      appending to the slices of the prior observations. */
  datatype Checker = Checker(
    job: Job, poll: nat, now: Time, snapshot: nat, prior: map<string, Cell>,
    read: nat, seen: Cluster, sampled: nat, delta: map<string, Cell>, findings: seq<Finding>)

  datatype Phase = Idle | Listing(lister: nat) | AtWork | Waiting(checker: nat)

  /** `main` is everything the main goroutine holds except the observations, which live in `observations`
      and the heap; its own observations field is unused. `results` are the values of the accepted results. */
  datatype World = World(
    main: Machine, observations: map<string, Option<Cell>>, results: seq<CheckResult>,
    phase: Phase, poll: nat, usageRun: bool, snapshot: nat, prior: map<string, Cell>,
    heap: seq<Array>, snapshots: seq<Cluster>, listers: seq<Lister>, checkers: seq<Checker>)

  datatype Turn =
    | BeginPoll(now: Time, api: Cluster, order: seq<string>, room: map<string, nat>)
    | ListingDone
    | ListingTimeout
    | Spawn(job: Job)
    | AcceptResult
    | CheckTimeout
    | Main(step: Step)
    | ListerMoves(lister: nat)
    | CheckerMoves(checker: nat, spare: nat)

  predicate OfMain(t: Turn) {
    !t.ListerMoves? && !t.CheckerMoves?
  }

  function CopyField(n: nat, from: Cluster, to: Cluster): Cluster {
    if n == 0 then to.(pods := from.pods)
    else if n == 1 then to.(events := from.events)
    else if n == 2 then to.(deployments := from.deployments)
    else if n == 3 then to.(statefulSets := from.statefulSets)
    else if n == 4 then to.(daemonSets := from.daemonSets)
    else if n == 5 then to.(services := from.services)
    else if n == 6 then to.(pvcs := from.pvcs)
    else to.(hpas := from.hpas)
  }

  /** The first n fields of a listing. */
  function Prefix(n: nat, c: Cluster): Cluster {
    Cluster(If(n > 0, c.pods), If(n > 1, c.events), If(n > 2, c.deployments), If(n > 3, c.statefulSets),
            If(n > 4, c.daemonSets), If(n > 5, c.services), If(n > 6, c.pvcs), If(n > 7, c.hpas))
  }

  function SamplesOf(c: Checker): seq<Sample> {
    if c.job.Usage? && c.job.samples(c.seen).Some? then c.job.samples(c.seen).value else []
  }

  predicate Finished(c: Checker) {
    c.read >= FIELDS && c.sampled >= |SamplesOf(c)|
  }

  function CellScalars(prior: map<string, Cell>): map<string, Scalars> {
    map k | k in prior :: Scalars(prior[k].restartCount, prior[k].lastSeen)
  }

  /** What the goroutine sends on its channel. The observations still hold slices. */
  function SentCells(c: Checker): map<string, Cell> {
    if c.job.Usage? then c.delta
    else
      var totals := c.job.answer(c.seen, CellScalars(c.prior)).totals;
      map k | k in totals :: Cell(totals[k].restartCount, totals[k].lastSeen, Nil, ZERO_TIME)
  }

  function SentValue(heap: seq<Array>, c: Checker): CheckResult {
    if c.job.Usage? then CheckResult(c.findings, c.job.samples(c.seen).Some?, Values(heap, SentCells(c)))
    else
      var a := c.job.answer(c.seen, CellScalars(c.prior));
      CheckResult(a.findings, a.complete, Values(heap, SentCells(c)))
  }

  function Seen(w: World): Machine {
    w.main.(state := w.main.state.(observations := StoredValues(w.heap, w.observations)))
  }

  /** The prior observation, or a new one. */
  function BaseCell(now: Time, prior: map<string, Cell>, s: Sample): Cell {
    if MemoryKey(s.pod) in prior then prior[MemoryKey(s.pod)] else Cell(0, now, Nil, ZERO_TIME)
  }

  /** One sample in checkResourceUsage. */
  function SampledCell(heap: seq<Array>, now: Time, prior: map<string, Cell>, s: Sample, spare: nat, poll: nat)
    : (seq<Array>, Cell)
  {
    var obs := BaseCell(now, prior, s);
    var (h, slice) := Append(heap, obs.samples, s.percent, spare, poll);
    (h, obs.(samples := Reslice(slice, SAMPLE_WINDOW), lastResourceSample := now))
  }

  /** Whether the program can take this turn now. */
  ghost predicate Can(cfg: Config, w: World, t: Turn) {
    match t
    case BeginPoll(now, _, order, _) =>
      (w.phase.Idle? || w.phase.AtWork?) && now > ZERO_TIME && forall k :: k in w.observations ==> k in order
    case ListingDone =>
      w.phase.Listing? && w.phase.lister < |w.listers| && w.listers[w.phase.lister].written >= FIELDS
    case ListingTimeout => w.phase.Listing?
    case Spawn(job) => w.phase.AtWork? && (job.Usage? ==> !w.usageRun)
    case AcceptResult => w.phase.Waiting? && w.phase.checker < |w.checkers| && Finished(w.checkers[w.phase.checker])
    case CheckTimeout => w.phase.Waiting?
    case Main(step) =>
      (w.phase.Idle? || w.phase.AtWork?) && !step.Begin? && !step.Accept? && Enabled(cfg, Seen(w), step)
    case ListerMoves(j) =>
      j < |w.listers| && w.listers[j].written < FIELDS && w.listers[j].target < |w.snapshots|
    case CheckerMoves(j, _) =>
      j < |w.checkers| && !Finished(w.checkers[j]) && w.checkers[j].snapshot < |w.snapshots|
  }

  ghost function TakeTurn(cfg: Config, w: World, t: Turn): World
    requires Can(cfg, w, t)
  {
    match t
    case BeginPoll(now, api, order, room) => StartPoll(cfg, w, now, api, order, room)
    case ListingDone => w.(phase := AtWork)
    case ListingTimeout =>
      w.(snapshot := |w.snapshots|, snapshots := w.snapshots + [NOTHING_LISTED], phase := AtWork)
    case Spawn(job) =>
      w.(usageRun := w.usageRun || job.Usage?, phase := Waiting(|w.checkers|),
         checkers := w.checkers +
           [Checker(job, w.poll, w.main.clock, w.snapshot, w.prior, 0, NOTHING_LISTED, 0, map[], [])])
    case AcceptResult => Take(cfg, w, SentValue(w.heap, w.checkers[w.phase.checker]),
      SentCells(w.checkers[w.phase.checker]))
    case CheckTimeout => Take(cfg, w, EMPTY_RESULT, map[])
    case Main(step) =>
      var m := Apply(cfg, Seen(w), step);
      w.(main := m, observations := Restrict(w.observations, m.state.observations.Keys))
    case ListerMoves(j) =>
      var l := w.listers[j];
      w.(listers := w.listers[j := l.(written := l.written + 1)],
         snapshots := w.snapshots[l.target := CopyField(l.written, l.answers, w.snapshots[l.target])])
    case CheckerMoves(j, spare) =>
      if w.checkers[j].read < FIELDS then ReadField(w, j) else HandleSample(cfg, w, j, spare)
  }

  function StartPoll(cfg: Config, w: World, now: Time, api: Cluster, order: seq<string>,
                     room: map<string, nat>): World {
    var (heap, prior) := CopyAll(w.heap, w.observations, order, room, w.poll + 1);
    w.(main := w.main.(active := {}, complete := true, clock := now),
       phase := Phase.Listing(|w.listers|), poll := w.poll + 1, usageRun := false,
       snapshot := |w.snapshots|, prior := prior, heap := heap, snapshots := w.snapshots + [NOTHING_LISTED],
       listers := w.listers + [Lister(Gated(cfg.checks, api), |w.snapshots|, 0)])
  }

  /** The first half of applyResult: the slices themselves go into m.state. */
  ghost function Take(cfg: Config, w: World, r: CheckResult, cells: map<string, Cell>): World {
    w.(main := Apply(cfg, Seen(w), Accept(r.observations, r.complete)),
       observations := w.observations + map k | k in cells :: Some(cells[k]),
       results := w.results + [r], phase := AtWork)
  }

  function ReadField(w: World, j: nat): World
    requires j < |w.checkers| && w.checkers[j].snapshot < |w.snapshots|
  {
    var c := w.checkers[j];
    w.(checkers := w.checkers[j := c.(read := c.read + 1, seen := CopyField(c.read, w.snapshots[c.snapshot], c.seen))])
  }

  function HandleSample(cfg: Config, w: World, j: nat, spare: nat): World
    requires j < |w.checkers| && w.checkers[j].sampled < |SamplesOf(w.checkers[j])|
  {
    var c := w.checkers[j];
    var s := SamplesOf(c)[c.sampled];
    var (heap, cell) := SampledCell(w.heap, c.now, c.prior, s, spare, c.poll);
    w.(heap := heap, checkers := w.checkers[j := Handled(cfg, heap, c, cell)])
  }

  /** The check after its next sample. */
  function Handled(cfg: Config, heap: seq<Array>, c: Checker, cell: Cell): Checker
    requires c.sampled < |SamplesOf(c)|
  {
    var s := SamplesOf(c)[c.sampled];
    c.(sampled := c.sampled + 1, delta := c.delta[MemoryKey(s.pod) := cell],
       findings := c.findings + UsageFinding(cfg, s, Read(heap, cell.samples)))
  }

  /** Some interleaving of the program. */
  ghost predicate Legal(cfg: Config, w: World, turns: seq<Turn>)
    decreases |turns|, 0
  {
    turns == [] || (Legal(cfg, w, Init(turns)) && Can(cfg, Reached(cfg, w, Init(turns)), Last(turns)))
  }

  ghost function Reached(cfg: Config, w: World, turns: seq<Turn>): World
    requires Legal(cfg, w, turns)
    decreases |turns|, 1
  {
    if turns == [] then w else TakeTurn(cfg, Reached(cfg, w, Init(turns)), Last(turns))
  }

  /** A process right after Load: no goroutine is running yet. */
  ghost predicate Fresh(w: World) {
    && w.phase.Idle? && w.poll == 0 && w.usageRun && w.prior == map[]
    && w.results == [] && w.snapshots == [] && w.listers == [] && w.checkers == []
    && AllInBounds(w.heap, w.observations) && forall i :: 0 <= i < |w.heap| ==> w.heap[i].poll == 0
  }

  // ----- the sequential program -----

  /** The main loop alone: listings and checks are instant. `steps` are the steps of Protocol it has taken. */
  datatype Alone = Alone(
    m: Machine, api: Cluster, listing: Cluster, prior: map<string, Observation>, job: Option<Job>,
    results: seq<CheckResult>, steps: seq<Step>)

  ghost function Do(cfg: Config, s: Alone, step: Step): Alone {
    s.(m := Apply(cfg, s.m, step), steps := s.steps + [step])
  }

  ghost function Collect(cfg: Config, s: Alone, r: CheckResult): Alone {
    Do(cfg, s, Accept(r.observations, r.complete)).(results := s.results + [r])
  }

  ghost function AloneTurn(cfg: Config, s: Alone, t: Turn): Alone {
    match t
    case BeginPoll(now, api, _, _) =>
      Do(cfg, s, Begin(now)).(api := api, prior := Prior(s.m.state.observations))
    case ListingDone => s.(listing := Gated(cfg.checks, s.api))
    case ListingTimeout => s.(listing := NOTHING_LISTED)
    case Spawn(job) => s.(job := Some(job))
    case AcceptResult =>
      if s.job.None? then s else Collect(cfg, s, Pure(cfg, s.job.value, s.m.clock, s.listing, s.prior))
    case CheckTimeout => Collect(cfg, s, EMPTY_RESULT)
    case Main(step) => Do(cfg, s, step)
    case ListerMoves(_) => s
    case CheckerMoves(_, _) => s
  }

  ghost function RunAlone(cfg: Config, s: Alone, turns: seq<Turn>): Alone {
    if turns == [] then s else AloneTurn(cfg, RunAlone(cfg, s, Init(turns)), Last(turns))
  }

  function MainTurns(turns: seq<Turn>): seq<Turn> {
    if turns == [] then []
    else MainTurns(Init(turns)) + (if OfMain(Last(turns)) then [Last(turns)] else [])
  }

  function AloneFrom(m: Machine): Alone {
    Alone(m, NOTHING_LISTED, NOTHING_LISTED, map[], None, [], [])
  }
}
