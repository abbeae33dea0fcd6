/** state.go: the state ConfigMap, its API server, and the optimistic-concurrency save loop. */
module Store {
  import opened Base
  import opened Findings
  import opened States

  const STATE_KEY := "state.json"
  const CONFLICT_RETRIES := 3

  /** A value in a ConfigMap: nothing, the JSON of a state document, or text that is neither. Maps the
      document lacks or has as null are None. */
  datatype Document =
    | Blank
    | Json(version: int, namespace: string,
           findings: Option<map<Id, FindingState>>, observations: Option<map<string, Option<Observation>>>)
    | Incompatible(text: string)

  datatype ConfigMap = ConfigMap(resourceVersion: nat, labels: map<string, string>, data: map<string, Document>)

  function Encode(s: MonitorState): Document {
    Json(s.version, s.namespace, Some(s.findings), Some(s.observations))
  }

  function OrEmpty<K, V>(m: Option<map<K, V>>): map<K, V> {
    if m.Some? then m.value else map[]
  }

  /** What Load makes of the text; None where it refuses to overwrite it. */
  function Decode(namespace: string, d: Document): Option<MonitorState> {
    match d
    case Blank => Some(NewMonitorState(namespace))
    case Incompatible(_) => None
    case Json(version, ns, findings, observations) =>
      if version != 1 then None
      else Some(MonitorState(1, if ns == "" then namespace else ns, OrEmpty(findings), OrEmpty(observations)))
  }

  /** Loading what was saved gives the state back exactly when it has version 1 and a namespace. */
  lemma SaveThenLoad(namespace: string, s: MonitorState)
    ensures Decode(namespace, Encode(s)) == Some(s) <==> s.version == 1 && (s.namespace == "" ==> namespace == "")
  {
  }

  /** A load adopts an empty text, as a new state, and every document of version 1, with its own maps, empty ones
      for those it lacks, and the namespace of the store if it names none. */
  lemma DecodesExactly(namespace: string, d: Document)
    ensures Decode(namespace, d).Some? <==> d == Blank || (d.Json? && d.version == 1)
    ensures d == Blank ==> Decode(namespace, d) == Some(MonitorState(1, namespace, map[], map[]))
    ensures d.Json? && d.version == 1 ==>
      var s := Decode(namespace, d).value;
      && s.version == 1 && s.namespace == (if d.namespace == "" then namespace else d.namespace)
      && (d.findings.Some? ==> s.findings == d.findings.value) && (d.findings.None? ==> s.findings == map[])
      && (d.observations.Some? ==> s.observations == d.observations.value)
      && (d.observations.None? ==> s.observations == map[])
  {
  }

  /** The text under the state key, if the object exists. */
  function StateText(o: Option<ConfigMap>): Option<Document> {
    if o.None? then None
    else Some(if STATE_KEY in o.value.data then o.value.data[STATE_KEY] else Blank)
  }

  /** An update the server applied, with the object it replaced. */
  datatype Swap = Swap(before: ConfigMap, after: ConfigMap)

  /** Only the state key changed, and it holds this document now. */
  predicate ReplacesState(s: Swap, d: Document) {
    && s.after.labels == s.before.labels
    && s.after.data == s.before.data[STATE_KEY := d]
    && s.after.resourceVersion > s.before.resourceVersion
  }

  datatype GetResult = Found(copy: ConfigMap) | NotFound | GetFailed
  datatype UpdateResult = Updated(copy: ConfigMap) | Conflict | UpdateFailed

  // ----- what is said between a client and the server -----

  /** One call and its answer, with the object that was sent. */
  datatype Call = Got(get: GetResult) | Put(sent: ConfigMap, put: UpdateResult) | Made(sent: ConfigMap,
    put: UpdateResult)

  predicate IsFound(c: Call) {
    c.Got? && c.get.Found?
  }

  predicate IsConflict(c: Call) {
    c.Put? && c.put.Conflict?
  }

  /** The call got no answer, or one that is an error other than a conflict. */
  predicate IsFailure(c: Call) {
    match c
    case Got(r) => r.GetFailed?
    case Put(_, r) => r.UpdateFailed?
    case Made(_, r) => r.UpdateFailed?
  }

  function Conflicts(calls: seq<Call>): nat {
    if calls == [] then 0
    else Conflicts(calls[..|calls| - 1]) + (if IsConflict(calls[|calls| - 1]) then 1 else 0)
  }

  function WithState(c: ConfigMap, d: Document): ConfigMap {
    c.(data := c.data[STATE_KEY := d])
  }

  /** Each update sends the copy at hand, fetched or cached, with nothing but the document replaced. Nothing is
      said after an answer other than a found object, which is updated next, and a conflict, which is followed
      by a fetch. */
  ghost predicate Exchange(calls: seq<Call>, cached: Option<ConfigMap>, d: Document) {
    && (forall i :: 0 <= i < |calls| ==> !calls[i].Made?)
    && (calls != [] ==> (calls[0].Put? <==> cached.Some?))
    && (calls != [] && calls[0].Put? ==> calls[0].sent == WithState(cached.value, d))
    && (forall i :: 0 < i < |calls| ==>
          if calls[i].Put? then IsFound(calls[i - 1]) && calls[i].sent == WithState(calls[i - 1].get.copy, d)
          else IsConflict(calls[i - 1]))
  }

  /** What a whole save says: it starts with an update of the cached object or with a fetch, and goes on until
      an update is acknowledged, a call fails, the object is missing, or the third conflict. */
  ghost predicate SaveDialogue(calls: seq<Call>, cached: Option<ConfigMap>, d: Document, ok: bool) {
    && calls != [] && Exchange(calls, cached, d)
    && var last := calls[|calls| - 1];
       && (ok <==> last.Put? && last.put.Updated?)
       && !IsFound(last)
       && (IsConflict(last) <==> Conflicts(calls) == 3) && Conflicts(calls) <= 3
  }

  /** So far only conflicts: the save is not decided yet. */
  ghost predicate Undecided(calls: seq<Call>, cached: Option<ConfigMap>, d: Document, conflicts: nat) {
    && Exchange(calls, cached, d) && Conflicts(calls) == conflicts
    && if conflicts == 0 then calls == [] else calls != [] && IsConflict(calls[|calls| - 1])
  }

  /** One attempt: a fetch if there is no fresh copy, and an update of what is at hand. */
  ghost predicate AttemptDialogue(calls: seq<Call>, fetch: bool, cached: Option<ConfigMap>, d: Document, decided: bool,
                                  ok: bool) {
    if fetch then
      && calls != [] && calls[0].Got?
      && (if calls[0].get.Found?
          then |calls| == 2 && PutDialogue(calls[1], calls[0].get.copy, d, decided, ok)
          else |calls| == 1 && decided && !ok)
    else |calls| == 1 && cached.Some? && PutDialogue(calls[0], cached.value, d, decided, ok)
  }

  predicate PutDialogue(c: Call, copy: ConfigMap, d: Document, decided: bool, ok: bool) {
    c.Put? && c.sent == WithState(copy, d) && (ok <==> c.put.Updated?) && (decided <==> !c.put.Conflict?)
  }

  lemma ConflictsSnoc(calls: seq<Call>, c: Call)
    ensures Conflicts(calls + [c]) == Conflicts(calls) + (if IsConflict(c) then 1 else 0)
  {
    assert (calls + [c])[..|calls|] == calls;
  }

  lemma ExchangeSnoc(calls: seq<Call>, c: Call, cached: Option<ConfigMap>, d: Document)
    requires Exchange(calls, cached, d) && !c.Made?
    requires if calls == [] then (c.Put? <==> cached.Some?) && (c.Put? ==> c.sent == WithState(cached.value, d))
             else if c.Put? then IsFound(calls[|calls| - 1]) && c.sent == WithState(calls[|calls| - 1].get.copy, d)
             else IsConflict(calls[|calls| - 1])
    ensures Exchange(calls + [c], cached, d)
  {
  }

  lemma AttemptContinues(calls: seq<Call>, more: seq<Call>, cached: Option<ConfigMap>, now: Option<ConfigMap>,
                         d: Document, conflicts: nat, decided: bool, ok: bool)
    requires Undecided(calls, cached, d, conflicts) && conflicts < 3 && (conflicts == 0 ==> now == cached)
    requires AttemptDialogue(more, now.None? || conflicts > 0, now, d, decided, ok)
    ensures if decided then SaveDialogue(calls + more, cached, d, ok)
            else Undecided(calls + more, cached, d, conflicts + 1)
  {
    hide Exchange, Conflicts;
    ExchangeSnoc(calls, more[0], cached, d);
    ConflictsSnoc(calls, more[0]);
    if |more| == 2 {
      ExchangeSnoc(calls + [more[0]], more[1], cached, d);
      ConflictsSnoc(calls + [more[0]], more[1]);
      assert calls + more == calls + [more[0]] + [more[1]];
    } else {
      assert more == [more[0]];
    }
  }

  lemma ThirdConflictDecides(calls: seq<Call>, cached: Option<ConfigMap>, d: Document)
    requires Undecided(calls, cached, d, 3)
    ensures SaveDialogue(calls, cached, d, false)
  {
  }

  /** What that means: something is said; a conflict short of the third is followed by a fetch and a found object
      by an update; the save fails only on a failed call, a missing object or the third conflict; and it succeeds
      exactly when the last word is an acknowledged update. */
  lemma DialogueMeans(calls: seq<Call>, cached: Option<ConfigMap>, d: Document, ok: bool)
    requires SaveDialogue(calls, cached, d, ok)
    ensures |calls| >= 1
    ensures forall i :: 0 <= i < |calls| && IsConflict(calls[i]) && Conflicts(calls[..i + 1]) < 3 ==>
      i + 1 < |calls| && calls[i + 1].Got?
    ensures forall i :: 0 <= i < |calls| && IsFound(calls[i]) ==> i + 1 < |calls| && calls[i + 1].Put?
    ensures var last := calls[|calls| - 1];
      && (!ok ==> IsFailure(last) || (last.Got? && last.get.NotFound?) || (IsConflict(last) && Conflicts(calls) == 3))
      && (ok <==> last.Put? && last.put.Updated?)
  {
    assert calls[..|calls|] == calls;
    assert forall i :: 0 < i < |calls| ==> if calls[i].Put? then IsFound(calls[i - 1]) else IsConflict(calls[i - 1]);
    forall i | 0 <= i < |calls| && IsConflict(calls[i]) && Conflicts(calls[..i + 1]) < 3
      ensures i + 1 < |calls| && calls[i + 1].Got?
    {
      NextAnswers(calls, i + 1);
    }
    forall i | 0 <= i < |calls| && IsFound(calls[i]) ensures i + 1 < |calls| && calls[i + 1].Put? {
      NextAnswers(calls, i + 1);
    }
  }

  lemma NextAnswers(calls: seq<Call>, i: nat)
    requires forall i :: 0 < i < |calls| ==> if calls[i].Put? then IsFound(calls[i - 1]) else IsConflict(calls[i - 1])
    requires 0 < i <= |calls|
    ensures i < |calls| ==> if calls[i].Put? then IsFound(calls[i - 1]) else IsConflict(calls[i - 1])
  {
  }

  /** What a load says, and what it makes of the answers. */
  ghost predicate LoadDialogue(calls: seq<Call>, namespace: string, state: Option<MonitorState>, ok: bool,
                               cached: Option<ConfigMap>, writeable: bool) {
    && calls != [] && calls[0].Got?
    && match calls[0].get
       case GetFailed => |calls| == 1 && state == None && !ok && writeable
       case Found(copy) =>
         && |calls| == 1 && cached == Some(copy)
         && var text := if STATE_KEY in copy.data then copy.data[STATE_KEY] else Blank;
            (if Decode(namespace, text).Some? then ok && state == Decode(namespace, text) && writeable
             else !ok && state == Some(MonitorState(1, namespace, map[], map[])) && !writeable)
       case NotFound =>
         && |calls| == 2 && calls[1].Made? && writeable
         && calls[1].sent.data == map["state.json" := Encode(MonitorState(1, namespace, map[], map[]))]
         && (if calls[1].put.Updated?
             then ok && state == Some(MonitorState(1, namespace, map[], map[])) && cached == Some(calls[1].put.copy)
             else !ok && state == None)
  }

  /** Every call was answered without an error other than a conflict. */
  ghost predicate AllAnswered(calls: seq<Call>) {
    forall i :: 0 <= i < |calls| ==> !IsFailure(calls[i])
  }

  // ----- what a process knows about the stored text -----

  /** The text under the state key, the text this process last loaded or wrote, and whether it may write. */
  datatype Holding = Holding(text: Option<Document>, known: Option<Document>, writeable: bool)

  function Written(h: Holding, d: Document): Holding {
    h.(text := Some(d), known := Some(d))
  }

  predicate CanWrite(h: Holding) {
    h.writeable && h.text.Some?
  }

  /** Every write of the list that can be applied replaces what the process last loaded or wrote. */
  predicate ReplacesKnown(h: Holding, writes: seq<Document>)
    decreases |writes|
  {
    writes == [] || !CanWrite(h) || (h.text == h.known && ReplacesKnown(Written(h, writes[0]), writes[1..]))
  }

  /** What Load may make of it, with no other writer. */
  predicate Loads(h: Holding, h': Holding, namespace: string, state: Option<MonitorState>, ok: bool) {
    match state
    case None => !ok && h' == h.(text := h'.text) && (h'.text == h.text || h.text.None?)
    case Some(s) =>
      if ok then
        && h' == h.(text := h'.text, known := h'.text) && h'.text.Some?
        && Decode(namespace, h'.text.value) == Some(s)
      else
        && h' == h.(writeable := false) && h.text.Some? && Decode(namespace, h.text.value).None?
        && s == NewMonitorState(namespace)
  }

  lemma {:induction false} WritesReplaceKnown(h: Holding, writes: seq<Document>)
    requires h.text == h.known || !CanWrite(h)
    ensures ReplacesKnown(h, writes)
    decreases |writes|
  {
    if writes != [] && CanWrite(h) {
      WritesReplaceKnown(Written(h, writes[0]), writes[1..]);
    }
  }

  /** Nothing is ever written over that this process did not load or write before. */
  ghost predicate Guarded(h: Holding) {
    forall writes :: ReplacesKnown(h, writes)
  }

  lemma GuardedExactly(h: Holding)
    ensures Guarded(h) <==> h.text == h.known || !CanWrite(h)
  {
    if h.text == h.known || !CanWrite(h) {
      forall writes ensures ReplacesKnown(h, writes) { WritesReplaceKnown(h, writes); }
    }
    if Guarded(h) {
      assert ReplacesKnown(h, [Blank]);
    }
  }

  /** With no other writer, a load leaves the stored text guarded exactly when it adopted a state, turned
      writing off, or left no object to write to. */
  lemma LoadGuardsExactly(h: Holding, h': Holding, namespace: string, state: Option<MonitorState>, ok: bool)
    requires h.known == None && Loads(h, h', namespace, state, ok)
    ensures Guarded(h') <==> ok || !h'.writeable || h'.text == None
  {
    GuardedExactly(h');
  }

  /** A load whose Get fails leaves the store writeable, and the first save replaces a document never loaded,
      even one that a load would have refused to overwrite. */
  lemma FailedGetOverwrites(stored: Document, namespace: string, d: Document)
    ensures var h := Holding(Some(stored), None, true);
      Loads(h, h, namespace, None, false) && CanWrite(h) && !ReplacesKnown(h, [d]) && Written(h, d).text == Some(d)
  {
  }

  // ----- the server -----

  /** The API server as seen by one client. Every write gets a resource version never used before; an update
      with a version other than the current one conflicts. Other clients act between any two calls. */
  class ApiServer {
    var current: Option<ConfigMap>
    var lastVersion: nat
    /** Every object the server held, in order. */
    ghost var held: seq<ConfigMap>
    ghost var applied: seq<Swap>
    ghost var sent: nat
    /** Everything this client said and was told, in order. */
    ghost var calls: seq<Call>
    /** Whether clients other than this monitor write the state key or delete the object. */
    const others: bool
    /** Whether no other client writes the object at all. */
    const alone: bool

    constructor (current: Option<ConfigMap>, others: bool, alone: bool)
      requires alone ==> !others
      ensures Valid() && this.current == current && this.others == others && this.alone == alone
      ensures applied == [] && sent == 0 && calls == []
      ensures held == if current.Some? then [current.value] else []
    {
      this.current := current;
      this.others, this.alone := others, alone;
      lastVersion := if current.Some? then current.value.resourceVersion else 0;
      held := if current.Some? then [current.value] else [];
      applied, sent, calls := [], 0, [];
    }

    ghost predicate Valid()
      reads this
    {
      && (alone ==> !others)
      && (current.Some? ==> held != [] && held[|held| - 1] == current.value)
      && (forall i :: 0 <= i < |held| ==> held[i].resourceVersion <= lastVersion)
      && (forall i, j :: 0 <= i < j < |held| ==> held[i].resourceVersion < held[j].resourceVersion)
    }

    /** The last update applied took the object the server held and put its own right behind it. */
    ghost predicate JustSwapped(s: Swap)
      reads this
    {
      && |held| >= 2 && held[|held| - 2] == s.before && held[|held| - 1] == s.after
      && current == Some(s.after) && s.before.resourceVersion < s.after.resourceVersion
    }

    /** What other clients may turn the object into, one write after another. */
    predicate MayBecome(next: Option<ConfigMap>, version: nat, news: seq<ConfigMap>)
      reads this
    {
      && version >= lastVersion
      && (forall i :: 0 <= i < |news| ==> lastVersion < news[i].resourceVersion <= version)
      && (forall i, j :: 0 <= i < j < |news| ==> news[i].resourceVersion < news[j].resourceVersion)
      && (next.Some? ==> next == if news == [] then current else Some(news[|news| - 1]))
      && (!others ==> StateText(next) == StateText(current))
      && (alone ==> next == current && version == lastVersion && news == [])
    }

    method Elsewhere()
      requires Valid()
      modifies this`current, this`lastVersion, this`held
      ensures Valid() && old(held) <= held && lastVersion >= old(lastVersion)
      ensures !others ==> StateText(current) == old(StateText(current))
      ensures alone ==> current == old(current)
    {
      var next: Option<ConfigMap>, version: nat, news: seq<ConfigMap> := *, *, *;
      if MayBecome(next, version, news) {
        current, lastVersion, held := next, version, held + news;
      }
    }

    method Get() returns (r: GetResult)
      requires Valid()
      modifies this`current, this`lastVersion, this`held, this`calls
      ensures calls == old(calls) + [Got(r)]
      ensures Valid() && old(held) <= held && lastVersion >= old(lastVersion)
      ensures r.Found? ==> current == Some(r.copy) && r.copy in held
      ensures r.NotFound? ==> current == None
      ensures !others ==> StateText(current) == old(StateText(current))
      ensures alone ==> current == old(current)
    {
      Elsewhere();
      var reachable: bool := *;
      if !reachable {
        r := GetFailed;
      } else if current.Some? {
        r := Found(current.value);
      } else {
        r := NotFound;
      }
      calls := calls + [Got(r)];
    }

    method Create(c: ConfigMap) returns (r: UpdateResult)
      requires Valid()
      modifies this`current, this`lastVersion, this`held, this`calls
      ensures calls == old(calls) + [Made(c, r)]
      ensures Valid() && old(held) <= held && lastVersion >= old(lastVersion)
      ensures r.Updated? ==> current == Some(r.copy) && r.copy in held && r.copy == c.(resourceVersion := lastVersion)
      ensures !others && old(current).Some? ==> StateText(current) == old(StateText(current))
    {
      Elsewhere();
      var reachable, heard: bool := *, *;
      if !reachable || current.Some? {
        calls := calls + [Made(c, UpdateFailed)];
        return UpdateFailed;
      }
      lastVersion := lastVersion + 1;
      var made := c.(resourceVersion := lastVersion);
      current, held := Some(made), held + [made];
      r := if heard then Updated(made) else UpdateFailed;
      calls := calls + [Made(c, r)];
    }

    /** An update is applied only to the object whose version it carries, and its answer may be lost. */
    method Update(c: ConfigMap) returns (r: UpdateResult)
      requires Valid()
      modifies this
      ensures Valid() && old(held) <= held && lastVersion >= old(lastVersion)
      ensures sent == old(sent) + 1 && calls == old(calls) + [Put(c, r)]
      ensures alone && applied == old(applied) ==> current == old(current)
      ensures alone && r.Conflict? ==>
                old(current).Some? && old(current).value.resourceVersion != c.resourceVersion
      ensures applied == old(applied) ||
              (&& |applied| == |old(applied)| + 1 && old(applied) <= applied
               && var s := applied[|old(applied)|];
                  && JustSwapped(s) && |old(held)| < |held|
                  && s.before.resourceVersion == c.resourceVersion && s.after == c.(resourceVersion := lastVersion)
                  && (!others ==> StateText(Some(s.before)) == old(StateText(current))))
      ensures r.Updated? ==> applied != old(applied) && current == Some(r.copy)
      ensures r.Conflict? ==> applied == old(applied)
      ensures !others && applied == old(applied) ==> StateText(current) == old(StateText(current))
    {
      Elsewhere();
      sent := sent + 1;
      var reachable, heard: bool := *, *;
      if !reachable || current.None? {
        calls := calls + [Put(c, UpdateFailed)];
        return UpdateFailed;
      }
      if current.value.resourceVersion != c.resourceVersion {
        calls := calls + [Put(c, Conflict)];
        return Conflict;
      }
      lastVersion := lastVersion + 1;
      var after := c.(resourceVersion := lastVersion);
      applied := applied + [Swap(current.value, after)];
      current, held := Some(after), held + [after];
      r := if heard then Updated(after) else UpdateFailed;
      calls := calls + [Put(c, r)];
    }
  }

  /** StateStore with its cached object. */
  class StateStore {
    const server: ApiServer
    const namespace: string
    var writeable: bool
    var cached: Option<ConfigMap>
    /** The text this process last loaded or wrote. */
    ghost var known: Option<Document>

    constructor (server: ApiServer, namespace: string)
      ensures this.server == server && this.namespace == namespace && writeable && cached == None && known == None
    {
      this.server, this.namespace := server, namespace;
      writeable, cached, known := true, None, None;
    }

    ghost predicate Valid()
      reads this, server
    {
      server.Valid() && (cached.Some? ==> cached.value in server.held)
    }

    ghost function Held(): Holding
      reads this`known, this`writeable, server`current
    {
      Holding(StateText(server.current), known, writeable)
    }

    /** The document to start from, and whether main.go reports a problem. */
    method Load() returns (state: Option<MonitorState>, ok: bool)
      requires Valid()
      modifies this`cached, this`writeable, this`known
      modifies server`current, server`lastVersion, server`held, server`calls
      ensures Valid() && old(server.held) <= server.held
      ensures old(server.calls) <= server.calls
      ensures old(writeable) ==>
                LoadDialogue(server.calls[|old(server.calls)|..], namespace, state, ok, cached, writeable)
      ensures state.Some? && ok ==> cached.Some? && server.current == cached
      ensures old(writeable) && !server.others && old(StateText(server.current)).Some?
              && AllAnswered(server.calls[|old(server.calls)|..]) ==>
                var stored := Decode(namespace, old(StateText(server.current)).value);
                && ok == stored.Some? && writeable == ok && (ok ==> state == stored)
      ensures writeable ==> old(writeable)
      ensures ok ==> state.Some? && state.value.version == 1 && writeable == old(writeable)
      ensures ok ==> StateText(server.current).Some? && known == StateText(server.current)
                     && Decode(namespace, known.value) == state
      ensures !ok ==> known == old(known)
      ensures state.None? ==> !ok && writeable == old(writeable)
      ensures !ok && state.Some? ==>
                && state.value == NewMonitorState(namespace) && !writeable && StateText(server.current).Some?
                && Decode(namespace, StateText(server.current).value).None?
      ensures !server.others ==> Loads(old(Held()), Held(), namespace, state, ok)
    {
      hide Encode;
      ghost var calls := server.calls;
      var got := server.Get();
      assert server.calls[|calls|..] == [Got(got)];
      if got.NotFound? {
        SaveThenLoad(namespace, NewMonitorState(namespace));
        state := CreateState();
        assert server.calls[|calls|..] == [Got(got), server.calls[|calls| + 1]];
        return state, state.Some?;
      }
      if got.GetFailed? {
        return None, false;
      }
      cached := Some(got.copy);
      var raw := if STATE_KEY in got.copy.data then got.copy.data[STATE_KEY] else Blank;
      var decoded := Decode(namespace, raw);
      if decoded.None? {
        writeable := false;
        return Some(NewMonitorState(namespace)), false;
      }
      known := Some(raw);
      return decoded, true;
    }

    /** create: an object that holds a new state. */
    method CreateState() returns (state: Option<MonitorState>)
      requires Valid()
      modifies this`cached, this`known, server`current, server`lastVersion, server`held, server`calls
      ensures Valid() && old(server.held) <= server.held
      ensures |server.calls| == |old(server.calls)| + 1 && old(server.calls) <= server.calls
      ensures var call := server.calls[|old(server.calls)|]; var initial := MonitorState(1, namespace, map[], map[]);
        && call.Made? && call.sent.data == map["state.json" := Encode(initial)]
        && (if call.put.Updated?
            then && state == Some(initial) && cached == Some(call.put.copy) && server.current == cached
                 && known == Some(Encode(initial)) && StateText(server.current) == known
            else state == None && cached == old(cached) && known == old(known))
    {
      hide Encode;
      var initial := NewMonitorState(namespace);
      var made := server.Create(ConfigMap(0, map["app.kubernetes.io/name" := "autonomous-monitor",
                                                 "app.kubernetes.io/component" := "state"],
                                          map[STATE_KEY := Encode(initial)]));
      if !made.Updated? {
        return None;
      }
      cached, known := Some(made.copy), Some(Encode(initial));
      return Some(initial);
    }

    /** At most one update is applied since `swaps`, and it replaced the state key, and nothing else, of the
        object that the server held at that moment. */
    ghost predicate Replaced(swaps: seq<Swap>, count: nat, sent: nat, d: Document)
      reads this`known, server
    {
      && swaps <= server.applied && |server.applied| <= |swaps| + 1
      && (server.applied != swaps ==>
            && server.sent > sent && |server.held| > count
            && server.JustSwapped(server.applied[|swaps|])
            && ReplacesState(server.applied[|swaps|], d)
            && known == Some(d))
    }

    lemma NothingReplaced(swaps: seq<Swap>, count: nat, sent: nat, d: Document)
      requires server.applied == swaps
      ensures Replaced(swaps, count, sent, d)
    {
    }

    lemma ReplacedIsStored(swaps: seq<Swap>, count: nat, sent: nat, d: Document)
      requires Replaced(swaps, count, sent, d) && server.applied != swaps
      ensures StateText(server.current) == Some(d)
    {
    }

    lemma ReplacedSince(swaps: seq<Swap>, count: nat, sent: nat, d: Document, count': nat, sent': nat)
      requires Replaced(swaps, count', sent', d) && count <= count' && sent <= sent'
      ensures Replaced(swaps, count, sent, d)
    {
    }

    /** With no other writer, an update that was applied replaced the text stored before; nothing else did. */
    ghost predicate Follows(swaps: seq<Swap>, before: Holding, d: Document)
      reads this`known, this`writeable, server
    {
      !server.others ==>
        if server.applied == swaps then Held() == before
        else && CanWrite(before) && Held() == Written(before, d) && |swaps| < |server.applied|
             && StateText(Some(server.applied[|swaps|].before)) == before.text
    }

    /** The loop body from the DeepCopy on: the cached object with the new document under the state key. */
    method PutState(copy: ConfigMap, d: Document) returns (r: UpdateResult)
      requires server.Valid() && copy in server.held && writeable
      modifies this`known, server
      ensures server.Valid() && old(server.held) <= server.held && server.sent == old(server.sent) + 1
      ensures Replaced(old(server.applied), |old(server.held)|, old(server.sent), d)
      ensures server.applied == old(server.applied) ==> known == old(known)
      ensures r.Updated? ==>
                server.applied != old(server.applied) && r.copy in server.held && server.current == Some(r.copy)
      ensures r.Conflict? ==> server.applied == old(server.applied)
      ensures Follows(old(server.applied), old(Held()), d)
      ensures server.calls == old(server.calls) + [Put(WithState(copy, d), r)]
      ensures server.alone && server.applied == old(server.applied) ==> server.current == old(server.current)
      ensures server.alone && r.Conflict? ==> old(server.current) != Some(copy)
    {
      ghost var swaps := server.applied;
      r := server.Update(copy.(data := copy.data[STATE_KEY := d]));
      if server.applied != swaps {
        known := Some(d);
        assert server.applied[|swaps|].before in server.held;
        assert server.applied[|swaps|].before == copy;
      }
    }

    /** The loop body: fetch the object if there is no fresh copy, and try to put the document into it. Only a
        conflict leaves it undecided. */
    method Attempt(fetch: bool, d: Document) returns (decided: bool, ok: bool)
      requires Valid() && writeable && (fetch || cached.Some?)
      modifies this`cached, this`known, server
      ensures Valid() && old(server.held) <= server.held && old(server.sent) <= server.sent <= old(server.sent) + 1
      ensures Replaced(old(server.applied), |old(server.held)|, old(server.sent), d)
      ensures Follows(old(server.applied), old(Held()), d)
      ensures server.applied == old(server.applied) ==> known == old(known)
      ensures ok ==> decided && server.applied != old(server.applied)
      ensures !decided ==> server.applied == old(server.applied) && cached == None
      ensures old(server.calls) < server.calls
      ensures AttemptDialogue(server.calls[|old(server.calls)|..], fetch, old(cached), d, decided, ok)
      ensures ok ==> server.current == cached
      ensures server.alone && server.applied == old(server.applied) ==> server.current == old(server.current)
      ensures server.alone && fetch ==> decided
      ensures server.alone && old(server.current).Some? && decided && !ok ==>
        IsFailure(server.calls[|server.calls| - 1])
    {
      hide StateText, ReplacesState, CanWrite, Written, Replaced, WithState, Follows, PutDialogue;
      ghost var calls, applied, sent, count := server.calls, server.applied, server.sent, |server.held|;
      ghost var before := Held();
      ghost var got := GetFailed;
      if fetch {
        var found;
        found, got := Fetch();
        assert server.calls[|calls|..] == [Got(got)];
        if !found {
          NothingReplaced(applied, count, sent, d);
          NothingFollows(applied, before, d);
          return true, false;
        }
      }
      ghost var said, counted, held := server.calls, |server.held|, Held();
      decided, ok := Send(d);
      assert server.calls[|calls|..] == said[|calls|..] + [server.calls[|said|]];
      ReplacedSince(applied, count, sent, d, counted, sent);
      FollowsSince(applied, before, held, d);
    }

    lemma NothingFollows(swaps: seq<Swap>, before: Holding, d: Document)
      requires server.applied == swaps && (!server.others ==> Held() == before)
      ensures Follows(swaps, before, d)
    {
    }

    lemma FollowsSince(swaps: seq<Swap>, before: Holding, now: Holding, d: Document)
      requires Follows(swaps, now, d) && (!server.others ==> now == before)
      ensures Follows(swaps, before, d)
    {
    }

    /** The fetch at the start of an attempt. */
    method Fetch() returns (found: bool, ghost got: GetResult)
      requires Valid()
      modifies this`cached, server`current, server`lastVersion, server`held, server`calls
      ensures Valid() && old(server.held) <= server.held && server.calls == old(server.calls) + [Got(got)]
      ensures found == got.Found? && cached == (if found then Some(got.copy) else old(cached))
      ensures found ==> server.current == cached
      ensures got.NotFound? ==> server.current == None
      ensures server.alone ==> server.current == old(server.current)
      ensures !server.others ==> Held() == old(Held())
    {
      var r := server.Get();
      got := r;
      found := r.Found?;
      if found {
        cached := Some(r.copy);
      }
    }

    /** The update of the object at hand. */
    method Send(d: Document) returns (decided: bool, ok: bool)
      requires Valid() && writeable && cached.Some?
      modifies this`cached, this`known, server
      ensures Valid() && old(server.held) <= server.held && server.sent == old(server.sent) + 1
      ensures Replaced(old(server.applied), |old(server.held)|, old(server.sent), d)
      ensures Follows(old(server.applied), old(Held()), d)
      ensures server.applied == old(server.applied) ==> known == old(known)
      ensures |server.calls| == |old(server.calls)| + 1 && old(server.calls) <= server.calls
      ensures PutDialogue(server.calls[|old(server.calls)|], old(cached).value, d, decided, ok)
      ensures ok ==> decided && server.applied != old(server.applied) && server.current == cached
      ensures !decided ==> server.applied == old(server.applied) && cached == None
      ensures server.alone && server.applied == old(server.applied) ==> server.current == old(server.current)
      ensures server.alone && !decided ==> old(server.current) != old(cached)
      ensures decided && !ok ==> IsFailure(server.calls[|server.calls| - 1])
    {
      hide Replaced, WithState, Follows, StateText;
      var updated := PutState(cached.value, d);
      if updated.Updated? {
        cached := Some(updated.copy);
      } else if updated.Conflict? {
        cached := None;
      }
      return !updated.Conflict?, updated.Updated?;
    }

    /** An acknowledged save replaced the state key, and nothing else, of exactly the object that was current. */
    method Save(state: MonitorState) returns (ok: bool)
      requires Valid()
      modifies this`cached, this`known, server
      ensures Valid() && old(server.held) <= server.held
      ensures Replaced(old(server.applied), |old(server.held)|, old(server.sent), Encode(state))
      ensures old(server.sent) <= server.sent <= old(server.sent) + CONFLICT_RETRIES
      ensures ok ==> server.applied != old(server.applied)
      ensures server.applied == old(server.applied) ==> known == old(known)
      ensures !writeable ==>
                && !ok && server.current == old(server.current) && server.held == old(server.held)
                && server.sent == old(server.sent) && server.applied == old(server.applied)
      ensures Follows(old(server.applied), old(Held()), Encode(state))
      ensures Spoke(old(server.calls), old(cached), Encode(state), ok)
      ensures ok ==> server.current == cached
      ensures writeable && server.alone && old(server.current).Some?
              && AllAnswered(server.calls[|old(server.calls)|..]) ==>
                ok && StateText(server.current) == Some(Encode(state))
    {
      hide StateText, ReplacesState, Encode, Replaced, CanWrite, Written, Exchange, SaveDialogue, AttemptDialogue,
        Undecided, AllAnswered;
      ok := false;
      var data := Encode(state);
      NothingReplaced(old(server.applied), |old(server.held)|, old(server.sent), data);
      assert server.calls[|old(server.calls)|..] == [];
      if !writeable {
        return;
      }
      NothingSaid(cached, data);
      var attempt := 0;
      while attempt < CONFLICT_RETRIES
        invariant 0 <= attempt <= CONFLICT_RETRIES && !ok
        invariant Valid() && old(server.held) <= server.held && known == old(known)
        invariant server.applied == old(server.applied)
        invariant old(server.sent) <= server.sent <= old(server.sent) + attempt
        invariant !server.others ==> Held() == old(Held())
        invariant old(server.calls) <= server.calls && (attempt == 0 ==> cached == old(cached))
        invariant Undecided(server.calls[|old(server.calls)|..], old(cached), data, attempt)
        invariant server.alone ==> server.current == old(server.current) && attempt <= 1
      {
        ghost var count, sent, calls, now := |server.held|, server.sent, server.calls, cached;
        var decided;
        decided, ok := Attempt(cached.None? || attempt > 0, data);
        ReplacedSince(old(server.applied), |old(server.held)|, old(server.sent), data, count, sent);
        ghost var before, more := calls[|old(server.calls)|..], server.calls[|calls|..];
        AttemptContinues(before, more, old(cached), now, data, attempt, decided, ok);
        CallsAppend(old(server.calls), calls, server.calls);
        if decided {
          if IsFailure(server.calls[|server.calls| - 1]) {
            FailureIsNoAnswer(old(server.calls), server.calls);
          }
          if ok {
            ReplacedIsStored(old(server.applied), |old(server.held)|, old(server.sent), data);
          }
          return;
        }
        attempt := attempt + 1;
      }
      NothingReplaced(old(server.applied), |old(server.held)|, old(server.sent), data);
      ThirdConflictDecides(server.calls[|old(server.calls)|..], old(cached), data);
    }

    /** A writeable store held the dialogue of a save since then; one that may not write said nothing. */
    ghost predicate Spoke(calls: seq<Call>, cached: Option<ConfigMap>, d: Document, ok: bool)
      reads this`writeable, server`calls
    {
      && calls <= server.calls
      && if writeable then SaveDialogue(server.calls[|calls|..], cached, d, ok) else server.calls == calls && !ok
    }

    static lemma CallsAppend(first: seq<Call>, later: seq<Call>, all: seq<Call>)
      requires first <= later <= all
      ensures all[|first|..] == later[|first|..] + all[|later|..]
    {
    }

    static lemma FailureIsNoAnswer(first: seq<Call>, all: seq<Call>)
      requires first < all && IsFailure(all[|all| - 1])
      ensures !AllAnswered(all[|first|..])
    {
      assert all[|first|..][|all| - |first| - 1] == all[|all| - 1];
    }

    static lemma NothingSaid(cached: Option<ConfigMap>, d: Document)
      ensures Undecided([], cached, d, 0)
    {
    }
  }
}
