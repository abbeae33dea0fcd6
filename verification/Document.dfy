/** The state document byte by byte, as Go's encoder writes it: what StateBytes counts is its length. */
module Document {
  import opened Base
  import opened Findings
  import opened States

  /** Printing that stays abstract: the calendar date and time of a second, and the hexadecimal digest of an id. */
  datatype Printer = Printer(date: int -> seq<int>, digest: Id -> seq<int>)

  /** A date reads like 2006-01-02T15:04:05, a digest has 64 digits. */
  ghost predicate Proper(p: Printer) {
    (forall second :: |p.date(second)| == 19) && (forall id :: |p.digest(id)| == 64)
  }

  // ----- characters, numbers and instants -----

  function Ascii(s: string): (r: seq<int>)
    ensures |r| == |s|
  {
    seq(|s|, i requires 0 <= i < |s| => s[i] as int)
  }

  function HexDigit(n: int): int {
    if n < 10 then 48 + n else 87 + n
  }

  function Utf8(n: nat): seq<int> {
    if n < 0x80 then [n]
    else if n < 0x800 then [0xC0 + n / 64, 0x80 + n % 64]
    else if n < 0x1_0000 then [0xE0 + n / 4096, 0x80 + n / 64 % 64, 0x80 + n % 64]
    else [0xF0 + n / 262144, 0x80 + n / 4096 % 64, 0x80 + n / 64 % 64, 0x80 + n % 64]
  }

  function CharText(c: char): seq<int> {
    var n := c as int;
    if c == '"' then Ascii("\\\"")
    else if c == '\\' then Ascii("\\\\")
    else if n == 8 then Ascii("\\b")
    else if n == 9 then Ascii("\\t")
    else if n == 10 then Ascii("\\n")
    else if n == 12 then Ascii("\\f")
    else if n == 13 then Ascii("\\r")
    else if n < 0x20 || c == '<' || c == '>' || c == '&' then Ascii("\\u00") + [HexDigit(n / 16), HexDigit(n % 16)]
    else if n == 0x2028 then Ascii("\\u2028")
    else if n == 0x2029 then Ascii("\\u2029")
    else Utf8(n)
  }

  function Text(s: string): seq<int> {
    if s == "" then [] else CharText(s[0]) + Text(s[1..])
  }

  function QuotedText(s: string): seq<int> {
    [34] + Text(s) + [34]
  }

  function Decimal(n: int): seq<int>
    decreases if n < 0 then 1 - n else n
  {
    if n < 0 then [45] + Decimal(-n)
    else if n < 10 then [48 + n]
    else Decimal(n / 10) + [48 + n % 10]
  }

  function Padded(n: nat, width: nat): seq<int> {
    if width == 0 then [] else Padded(n / 10, width - 1) + [48 + n % 10]
  }

  function Trimmed(fraction: nat, width: nat): seq<int> {
    if width > 0 && fraction % 10 == 0 then Trimmed(fraction / 10, width - 1) else Padded(fraction, width)
  }

  function TimeText(p: Printer, t: Time): seq<int> {
    var fraction := t % 1_000_000_000;
    [34] + p.date(t / 1_000_000_000) + (if fraction == 0 then [] else [46] + Trimmed(fraction, 9)) + [90, 34]
  }

  lemma CharLength(c: char)
    ensures |CharText(c)| == CharBytes(c)
  {
  }

  lemma {:induction false} TextLength(s: string)
    ensures |Text(s)| == TextBytes(s)
  {
    if s != "" {
      CharLength(s[0]);
      TextLength(s[1..]);
    }
  }

  lemma {:induction false} DecimalIsLong(n: int)
    ensures |Decimal(n)| == DecimalLength(n) > 0
    decreases if n < 0 then 1 - n else n
  {
    if n < 0 {
      DecimalIsLong(-n);
    } else if n >= 10 {
      DecimalIsLong(n / 10);
    }
  }

  lemma {:induction false} PaddedLength(n: nat, width: nat)
    ensures |Padded(n, width)| == width
  {
    if width > 0 {
      PaddedLength(n / 10, width - 1);
    }
  }

  lemma {:induction false} TrimmedLength(fraction: nat, width: nat)
    ensures |Trimmed(fraction, width)| == FractionDigits(fraction, width)
  {
    if width > 0 && fraction % 10 == 0 {
      TrimmedLength(fraction / 10, width - 1);
    } else {
      PaddedLength(fraction, width);
    }
  }

  lemma TimeLength(p: Printer, t: Time)
    requires Proper(p)
    ensures |TimeText(p, t)| == TimeBytes(t)
  {
    TrimmedLength(t % 1_000_000_000, 9);
  }

  // ----- objects -----

  /** A member with the comma behind it. */
  function Pair(name: string, value: seq<int>): (r: seq<int>)
    ensures |r| == Member(|name|, |value|)
  {
    [34] + Ascii(name) + [34, 58] + value + [44]
  }

  /** Members in braces, the last comma replaced. */
  function Object(members: seq<int>): (r: seq<int>)
    ensures |r| == Braced(|members|)
  {
    if members == [] then [123, 125] else [123] + members[..|members| - 1] + [125]
  }

  function OptionalPair(p: Printer, name: string, t: Option<Time>): seq<int> {
    if t.Some? then Pair(name, TimeText(p, t.value)) else []
  }

  lemma OptionalLength(p: Printer, name: string, t: Option<Time>)
    requires Proper(p)
    ensures |OptionalPair(p, name, t)| == OptionalTime(|name|, t)
  {
    if t.Some? { TimeLength(p, t.value); }
  }

  lemma QuotedLength(s: string)
    ensures |QuotedText(s)| == Quoted(s)
  {
    TextLength(s);
  }

  function FindingHead(p: Printer, e: FindingState): seq<int> {
    Pair("kind", QuotedText(e.kind)) + Pair("name", QuotedText(e.name)) + Pair("check", QuotedText(e.check))
    + Pair("reason", QuotedText(e.reason)) + Pair("first_seen", TimeText(p, e.firstSeen))
    + Pair("last_seen", TimeText(p, e.lastSeen))
  }

  function FindingTimes(p: Printer, e: FindingState): seq<int> {
    OptionalPair(p, "last_published", e.lastPublished) + OptionalPair(p, "last_publish_failed", e.lastPublishFailed)
    + OptionalPair(p, "last_ai_dispatch_requested", e.lastAIDispatch)
      + OptionalPair(p, "cooldown_until", e.cooldownUntil)
  }

  function FindingTail(e: FindingState): seq<int> {
    Pair("score", Decimal(e.score)) + Pair("classification", QuotedText(ClassificationText(e.classification)))
    + Pair("status", QuotedText(StatusText(e.status)))
  }

  /** One entry of the findings object, with its comma. */
  function FindingText(p: Printer, id: Id, e: FindingState): seq<int> {
    [34] + p.digest(id) + [34, 58] + Object(FindingHead(p, e) + FindingTimes(p, e) + FindingTail(e)) + [44]
  }

  lemma FindingLength(p: Printer, id: Id, e: FindingState)
    requires Proper(p)
    ensures |FindingText(p, id, e)| == FindingBytes(id, e)
  {
    HeadLength(p, e);
    TimesLength(p, e);
    TailLength(e);
  }

  lemma HeadLength(p: Printer, e: FindingState)
    requires Proper(p)
    ensures |FindingHead(p, e)|
         == Member(4, Quoted(e.kind)) + Member(4, Quoted(e.name)) + Member(5, Quoted(e.check))
            + Member(6, Quoted(e.reason)) + Member(10, TimeBytes(e.firstSeen)) + Member(9, TimeBytes(e.lastSeen))
  {
    QuotedLength(e.kind);
    QuotedLength(e.name);
    QuotedLength(e.check);
    QuotedLength(e.reason);
    TimeLength(p, e.firstSeen);
    TimeLength(p, e.lastSeen);
  }

  lemma TimesLength(p: Printer, e: FindingState)
    requires Proper(p)
    ensures |FindingTimes(p, e)|
         == OptionalTime(14, e.lastPublished) + OptionalTime(19, e.lastPublishFailed)
            + OptionalTime(26, e.lastAIDispatch) + OptionalTime(14, e.cooldownUntil)
  {
    OptionalLength(p, "last_published", e.lastPublished);
    OptionalLength(p, "last_publish_failed", e.lastPublishFailed);
    OptionalLength(p, "last_ai_dispatch_requested", e.lastAIDispatch);
    OptionalLength(p, "cooldown_until", e.cooldownUntil);
  }

  lemma TailLength(e: FindingState)
    ensures |FindingTail(e)|
         == Member(5, DecimalLength(e.score)) + Member(14, Quoted(ClassificationText(e.classification)))
            + Member(6, Quoted(StatusText(e.status)))
  {
    DecimalIsLong(e.score);
    QuotedLength(ClassificationText(e.classification));
    QuotedLength(StatusText(e.status));
  }

  /** The elements of an array, each with its comma. */
  function Elements(samples: seq<int>): seq<int> {
    if samples == [] then [] else Decimal(samples[0]) + [44] + Elements(samples[1..])
  }

  function ArrayText(samples: seq<int>): seq<int> {
    if samples == [] then [91, 93] else [91] + Elements(samples)[..|Elements(samples)| - 1] + [93]
  }

  lemma {:induction false} ElementsLength(samples: seq<int>)
    ensures |Elements(samples)| == SamplesBytes(samples)
    ensures samples != [] ==> |Elements(samples)| > 0 && |ArrayText(samples)| == 1 + SamplesBytes(samples)
  {
    if samples != [] {
      DecimalIsLong(samples[0]);
      ElementsLength(samples[1..]);
    }
  }

  function ObservationMembers(p: Printer, o: Observation): seq<int> {
    (if o.restartCount == 0 then [] else Pair("restart_count", Decimal(o.restartCount)))
    + Pair("last_seen", TimeText(p, o.lastSeen))
    + (if o.memorySamples == [] then [] else Pair("memory_samples_pct", ArrayText(o.memorySamples)))
    + Pair("last_resource_sample", TimeText(p, o.lastResourceSample))
  }

  /** One entry of the observations object, with its comma. */
  function ObservationText(p: Printer, key: string, o: Option<Observation>): seq<int> {
    QuotedText(key) + [58] + (if o.None? then Ascii("null") else Object(ObservationMembers(p, o.value))) + [44]
  }

  lemma ObservationLength(p: Printer, key: string, o: Option<Observation>)
    requires Proper(p)
    ensures |ObservationText(p, key, o)| == ObservationBytes(key, o)
  {
    QuotedLength(key);
    if o.Some? {
      DecimalIsLong(o.value.restartCount);
      TimeLength(p, o.value.lastSeen);
      TimeLength(p, o.value.lastResourceSample);
      ElementsLength(o.value.memorySamples);
    }
  }

  // ----- the whole document -----

  function AllFindings(p: Printer, findings: map<Id, FindingState>, ids: seq<Id>): seq<int> {
    if ids == [] then []
    else
      var id := ids[|ids| - 1];
      AllFindings(p, findings, ids[..|ids| - 1]) + (if id in findings then FindingText(p, id, findings[id]) else [])
  }

  function AllObservations(p: Printer, observations: map<string, Option<Observation>>, keys: seq<string>): seq<int> {
    if keys == [] then []
    else
      var k := keys[|keys| - 1];
      AllObservations(p, observations, keys[..|keys| - 1])
      + (if k in observations then ObservationText(p, k, observations[k]) else [])
  }

  /** The order names every key of the map once. */
  ghost predicate Orders<K(!new), V>(order: seq<K>, m: map<K, V>) {
    && (forall i, j :: 0 <= i < j < |order| ==> order[i] != order[j])
    && (forall k :: k in m <==> k in order)
  }

  lemma OrderLoses<K(!new), V>(order: seq<K>, m: map<K, V>)
    requires Orders(order, m) && order != []
    ensures order[|order| - 1] in m && Orders(order[..|order| - 1], m - {order[|order| - 1]})
  {
    var last, init := order[|order| - 1], order[..|order| - 1];
    assert forall k :: k in order <==> k == last || k in init;
  }

  lemma {:induction false} SameFindings(p: Printer, a: map<Id, FindingState>, b: map<Id, FindingState>, ids: seq<Id>)
    requires forall i :: 0 <= i < |ids| ==> ids[i] in a && ids[i] in b && a[ids[i]] == b[ids[i]]
    ensures AllFindings(p, a, ids) == AllFindings(p, b, ids)
  {
    if ids != [] {
      SameFindings(p, a, b, ids[..|ids| - 1]);
    }
  }

  lemma LastFinding(p: Printer, findings: map<Id, FindingState>, ids: seq<Id>)
    requires Proper(p) && Orders(ids, findings) && ids != []
    ensures var last, init := ids[|ids| - 1], ids[..|ids| - 1];
      && last in findings && Orders(init, findings - {last})
      && |AllFindings(p, findings, ids)|
         == |AllFindings(p, findings - {last}, init)| + FindingBytes(last, findings[last])
  {
    var last, init := ids[|ids| - 1], ids[..|ids| - 1];
    OrderLoses(ids, findings);
    assert forall i :: 0 <= i < |init| ==> init[i] == ids[i] && init[i] in init;
    SameFindings(p, findings, findings - {last}, init);
    FindingLength(p, last, findings[last]);
    hide FindingText, FindingBytes;
  }

  lemma {:induction false} FindingsLength(p: Printer, findings: map<Id, FindingState>, ids: seq<Id>)
    requires Proper(p) && Orders(ids, findings)
    ensures |AllFindings(p, findings, ids)| == Total(findings, FindingBytes)
    decreases |ids|
  {
    if ids == [] {
      assert findings == map[];
    } else {
      hide AllFindings, Orders, FindingBytes;
      var last := ids[|ids| - 1];
      LastFinding(p, findings, ids);
      FindingsLength(p, findings - {last}, ids[..|ids| - 1]);
      TotalTakesAny(findings, FindingBytes, last);
    }
  }

  lemma {:induction false} SameObservations(p: Printer, a: map<string, Option<Observation>>,
                                            b: map<string, Option<Observation>>, keys: seq<string>)
    requires forall i :: 0 <= i < |keys| ==> keys[i] in a && keys[i] in b && a[keys[i]] == b[keys[i]]
    ensures AllObservations(p, a, keys) == AllObservations(p, b, keys)
  {
    if keys != [] {
      SameObservations(p, a, b, keys[..|keys| - 1]);
    }
  }

  lemma {:induction false} ObservationsLength(p: Printer, observations: map<string, Option<Observation>>,
                                              keys: seq<string>)
    requires Proper(p) && Orders(keys, observations)
    ensures |AllObservations(p, observations, keys)| == Total(observations, ObservationBytes)
    decreases |keys|
  {
    if keys == [] {
      assert observations == map[];
    } else {
      hide ObservationText, ObservationBytes, Total;
      var last, init := keys[|keys| - 1], keys[..|keys| - 1];
      OrderLoses(keys, observations);
      ObservationsLength(p, observations - {last}, init);
      assert forall i :: 0 <= i < |init| ==> init[i] == keys[i] && init[i] in init;
      SameObservations(p, observations, observations - {last}, init);
      TotalTakesAny(observations, ObservationBytes, last);
      ObservationLength(p, last, observations[last]);
    }
  }

  /** The compact JSON of a state, its maps written in these orders. */
  function DocumentText(p: Printer, s: MonitorState, ids: seq<Id>, keys: seq<string>): seq<int> {
    Object(Pair("version", Decimal(s.version)) + Pair("namespace", QuotedText(s.namespace))
           + Pair("findings", Object(AllFindings(p, s.findings, ids)))
           + Pair("observations", Object(AllObservations(p, s.observations, keys))))
  }

  /** The size that the limit is compared with is the length of the document, in whatever order it is written. */
  lemma SizeIsTheLength(p: Printer, s: MonitorState, ids: seq<Id>, keys: seq<string>)
    requires Proper(p) && Orders(ids, s.findings) && Orders(keys, s.observations)
    ensures |DocumentText(p, s, ids, keys)| == StateBytes(s)
  {
    DecimalIsLong(s.version);
    QuotedLength(s.namespace);
    FindingsLength(p, s.findings, ids);
    ObservationsLength(p, s.observations, keys);
  }
}
