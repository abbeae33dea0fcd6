/** state.go: the persisted state, and the number of bytes its JSON takes. */
module States {
  import opened Base
  import opened Findings

  datatype FindingState = FindingState(
    kind: string, name: string, check: string, reason: string,
    firstSeen: Time, lastSeen: Time,
    lastPublished: Option<Time>, lastPublishFailed: Option<Time>,
    lastAIDispatch: Option<Time>, cooldownUntil: Option<Time>,
    score: int, classification: Classification, status: Status)

  datatype Observation = Observation(
    restartCount: int, lastSeen: Time, memorySamples: seq<int>, lastResourceSample: Time)

  /** Observation entries are pointers that a loaded document may leave null. */
  datatype MonitorState = MonitorState(
    version: int, namespace: string,
    findings: map<Id, FindingState>,
    observations: map<string, Option<Observation>>)

  function NewMonitorState(namespace: string): MonitorState {
    MonitorState(1, namespace, map[], map[])
  }

  /** The age an eviction sees; a null entry counts as the zero time. */
  function ObservationAge(o: Option<Observation>): Time {
    if o.Some? then o.value.lastSeen else ZERO_TIME
  }

  // ----- the size of the compact JSON document -----

  function DecimalLength(n: int): nat
    decreases if n < 0 then 1 - n else n
  {
    if n < 0 then 1 + DecimalLength(-n)
    else if n < 10 then 1
    else 1 + DecimalLength(n / 10)
  }

  /** `"name":value,` */
  function Member(nameLength: nat, valueLength: nat): nat {
    nameLength + valueLength + 4
  }

  /** One character of a JSON string as the marshaller writes it: escaped, or in UTF-8. */
  function CharBytes(c: char): nat {
    var n := c as int;
    if c == '"' || c == '\\' || n == 8 || n == 9 || n == 10 || n == 12 || n == 13 then 2
    else if n < 0x20 || c == '<' || c == '>' || c == '&' || n == 0x2028 || n == 0x2029 then 6
    else if n < 0x80 then 1
    else if n < 0x800 then 2
    else if n < 0x1_0000 then 3
    else 4
  }

  function TextBytes(s: string): nat {
    if s == "" then 0 else CharBytes(s[0]) + TextBytes(s[1..])
  }

  function Quoted(s: string): nat {
    TextBytes(s) + 2
  }

  /** The digits of a fraction of a second, without the trailing zeros. */
  function FractionDigits(fraction: nat, width: nat): nat {
    if width > 0 && fraction % 10 == 0 then FractionDigits(fraction / 10, width - 1) else width
  }

  /** A quoted RFC 3339 instant in UTC, with a fraction only if there is one. */
  function TimeBytes(t: Time): nat {
    var fraction := t % 1_000_000_000;
    if fraction == 0 then 22 else 23 + FractionDigits(fraction, 9)
  }

  function OptionalTime(nameLength: nat, t: Option<Time>): nat {
    if t.Some? then Member(nameLength, TimeBytes(t.value)) else 0
  }

  /** `{...}` around members that each bring their comma; the last comma gives way to the brace. */
  function Braced(members: nat): nat {
    if members == 0 then 2 else 1 + members
  }

  function ClassificationText(c: Classification): string {
    match c
    case Healthy => "healthy"
    case Watch => "watch"
    case Suspicious => "suspicious"
    case Degraded => "degraded"
    case IncidentLikely => "incident-likely"
    case OtherClass(text) => text
  }

  function StatusText(s: Status): string {
    match s
    case Ongoing => "ongoing"
    case Resolved => "resolved"
    case OtherStatus(text) => text
  }

  /** The names that the document uses. */
  lemma TextsSpelledOut()
    ensures ClassificationText(Healthy) == "healthy" && ClassificationText(Watch) == "watch"
    ensures ClassificationText(Suspicious) == "suspicious" && ClassificationText(Degraded) == "degraded"
    ensures ClassificationText(IncidentLikely) == "incident-likely"
    ensures StatusText(Ongoing) == "ongoing" && StatusText(Resolved) == "resolved"
    ensures forall text :: ClassificationText(OtherClass(text)) == text && StatusText(OtherStatus(text)) == text
  {
  }

  /** One `"digest":{...},` of the findings object; a digest prints as 64 hexadecimal digits. */
  function FindingBytes(id: Id, e: FindingState): nat {
    Member(64, 1 + Member(4, Quoted(e.kind)) + Member(4, Quoted(e.name)) + Member(5, Quoted(e.check))
               + Member(6, Quoted(e.reason)) + Member(10, TimeBytes(e.firstSeen)) + Member(9, TimeBytes(e.lastSeen))
               + OptionalTime(14, e.lastPublished) + OptionalTime(19, e.lastPublishFailed)
               + OptionalTime(26, e.lastAIDispatch) + OptionalTime(14, e.cooldownUntil)
               + Member(5, DecimalLength(e.score)) + Member(14, Quoted(ClassificationText(e.classification)))
               + Member(6, Quoted(StatusText(e.status))))
  }

  function SamplesBytes(samples: seq<int>): nat {
    if samples == [] then 0 else DecimalLength(samples[0]) + 1 + SamplesBytes(samples[1..])
  }

  /** One `"key":{...},` or `"key":null,` of the observations object. */
  function ObservationBytes(key: string, o: Option<Observation>): nat {
    Member(TextBytes(key),
           if o == None then 4
           else 1 + (if o.value.restartCount == 0 then 0 else Member(13, DecimalLength(o.value.restartCount)))
                + Member(9, TimeBytes(o.value.lastSeen))
                + (if o.value.memorySamples == [] then 0 else Member(18, 1 + SamplesBytes(o.value.memorySamples)))
                + Member(20, TimeBytes(o.value.lastResourceSample)))
  }

  /** The sum of a weight over the entries of a map, in any order. */
  ghost function Total<K(!new), V>(m: map<K, V>, weight: (K, V) -> nat): nat
  {
    if m == map[] then 0
    else
      var k :| k in m;
      weight(k, m[k]) + Total(m - {k}, weight)
  }

  lemma {:induction false} TotalTakesAny<K(!new), V>(m: map<K, V>, weight: (K, V) -> nat, k: K)
    requires k in m
    ensures Total(m, weight) == weight(k, m[k]) + Total(m - {k}, weight)
    decreases |m|
  {
    var j :| j in m && Total(m, weight) == weight(j, m[j]) + Total(m - {j}, weight);
    if j != k {
      TotalTakesAny(m - {j}, weight, k);
      TotalTakesAny(m - {k}, weight, j);
      assert m - {j} - {k} == m - {k} - {j};
    }
  }

  ghost function StateBytes(s: MonitorState): nat {
    1 + Member(7, DecimalLength(s.version)) + Member(9, Quoted(s.namespace))
    + Member(8, Braced(Total(s.findings, FindingBytes))) + Member(12, Braced(Total(s.observations, ObservationBytes)))
  }

  /** currentStateBytes: the marshaller visits every entry of both maps once, in no particular order. */
  method CurrentStateBytes(s: MonitorState) returns (size: nat)
    ensures size == StateBytes(s)
  {
    var findingsSize, left := 0, s.findings;
    while left != map[]
      invariant findingsSize + Total(left, FindingBytes) == Total(s.findings, FindingBytes)
      decreases |left|
    {
      var id :| id in left;
      TotalTakesAny(left, FindingBytes, id);
      findingsSize, left := findingsSize + FindingBytes(id, left[id]), left - {id};
    }
    var observationsSize, rest := 0, s.observations;
    while rest != map[]
      invariant observationsSize + Total(rest, ObservationBytes) == Total(s.observations, ObservationBytes)
      decreases |rest|
    {
      var key :| key in rest;
      TotalTakesAny(rest, ObservationBytes, key);
      observationsSize, rest := observationsSize + ObservationBytes(key, rest[key]), rest - {key};
    }
    size := 1 + Member(7, DecimalLength(s.version)) + Member(9, Quoted(s.namespace))
            + Member(8, Braced(findingsSize)) + Member(12, Braced(observationsSize));
  }

  /** Removing an entry of either map makes the document strictly smaller. */
  lemma RemovalShrinks(s: MonitorState, id: Id, key: string)
    ensures id in s.findings ==> StateBytes(s.(findings := s.findings - {id})) < StateBytes(s)
    ensures key in s.observations ==> StateBytes(s.(observations := s.observations - {key})) < StateBytes(s)
  {
    if id in s.findings {
      TotalTakesAny(s.findings, FindingBytes, id);
    }
    if key in s.observations {
      TotalTakesAny(s.observations, ObservationBytes, key);
    }
  }
}
