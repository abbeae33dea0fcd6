/** The sample arrays behind Observation.MemorySamplesPct: slices share their array, and append writes into
    spare capacity in place. */
module Memory {
  import opened Base
  import opened States
  import opened Protocol
  import opened History

  /** A backing array. `poll` is the poll that allocated it; no step of the program looks at it. */
  datatype Array = Array(cells: seq<int>, poll: nat)

  datatype Slice = Nil | Slice(base: nat, offset: nat, length: nat)

  predicate InBounds(heap: seq<Array>, s: Slice) {
    s.Slice? ==> s.base < |heap| && s.offset + s.length <= |heap[s.base].cells|
  }

  function Read(heap: seq<Array>, s: Slice): seq<int> {
    if s.Slice? && InBounds(heap, s) then heap[s.base].cells[s.offset..s.offset + s.length] else []
  }

  /** append(s, val): in place if the array has room behind the slice, otherwise into a new array whose spare
      capacity the runtime chooses. */
  function Append(heap: seq<Array>, s: Slice, val: int, spare: nat, poll: nat): (seq<Array>, Slice)
  {
    if s.Slice? && InBounds(heap, s) && s.offset + s.length < |heap[s.base].cells| then
      (heap[s.base := heap[s.base].(cells := heap[s.base].cells[s.offset + s.length := val])],
       s.(length := s.length + 1))
    else
      (heap + [Array(Read(heap, s) + [val] + Zeros(spare), poll)], Slice(|heap|, 0, |Read(heap, s)| + 1))
  }

  function Zeros(n: nat): (r: seq<int>)
    ensures |r| == n
  {
    seq(n, _ => 0)
  }

  /** samples[len(samples)-maxLen:] when longer than that. */
  function Reslice(s: Slice, maxLen: nat): Slice {
    if s.Slice? && s.length > maxLen then Slice(s.base, s.offset + s.length - maxLen, maxLen) else s
  }

  /** Appending adds the value at the end: in place, in the next cell of the slice's own array, when there is
      room, and otherwise in a new array that leaves every old one as it is. */
  lemma AppendMeaning(heap: seq<Array>, s: Slice, val: int, spare: nat, poll: nat)
    requires InBounds(heap, s)
    requires s.Slice? ==> heap[s.base].poll == poll
    ensures var (h, r) := Append(heap, s, val, spare, poll);
      && r.Slice? && InBounds(h, r) && Read(h, r) == Read(heap, s) + [val]
      && h[r.base].poll == poll
      && (if s.Slice? && s.offset + s.length < |heap[s.base].cells|
          then && r == s.(length := s.length + 1) && |h| == |heap|
               && h[s.base].cells == heap[s.base].cells[s.offset + s.length := val]
          else r.base == |heap| && Extends(heap, h))
  {
  }

  /** It disturbs no slice that ends where s ends or before. */
  lemma AppendFrame(heap: seq<Array>, s: Slice, val: int, spare: nat, poll: nat, t: Slice)
    requires InBounds(heap, s) && InBounds(heap, t)
    requires s.Slice? && t.Slice? && s.base == t.base ==> t.offset + t.length <= s.offset + s.length
    ensures var (h, r) := Append(heap, s, val, spare, poll);
      InBounds(h, t) && Read(h, t) == Read(heap, t)
  {
  }

  /** It keeps every array's owner and size, and every other array. */
  lemma AppendKeeps(heap: seq<Array>, s: Slice, val: int, spare: nat, poll: nat)
    requires InBounds(heap, s)
    ensures var (h, r) := Append(heap, s, val, spare, poll);
      && |heap| <= |h| && (forall i :: |heap| <= i < |h| ==> h[i].poll == poll)
      && (forall i :: 0 <= i < |heap| ==> h[i].poll == heap[i].poll && |h[i].cells| == |heap[i].cells|)
      && (forall i :: 0 <= i < |heap| && (s.Nil? || i != s.base) ==> h[i] == heap[i])
  {
  }

  // ----- observations that hold slices -----

  /** An Observation as the program stores it. */
  datatype Cell = Cell(restartCount: int, lastSeen: Time, samples: Slice, lastResourceSample: Time)

  function ValueOf(heap: seq<Array>, c: Cell): Observation {
    Observation(c.restartCount, c.lastSeen, Read(heap, c.samples), c.lastResourceSample)
  }

  function Values(heap: seq<Array>, cells: map<string, Cell>): map<string, Observation> {
    map k | k in cells :: ValueOf(heap, cells[k])
  }

  function StoredValue(heap: seq<Array>, c: Option<Cell>): Option<Observation> {
    if c.None? then None else Some(ValueOf(heap, c.value))
  }

  function StoredValues(heap: seq<Array>, cells: map<string, Option<Cell>>): map<string, Option<Observation>> {
    map k | k in cells :: StoredValue(heap, cells[k])
  }

  /** Every array behind these cells belongs to this poll. */
  predicate Owned(heap: seq<Array>, cells: map<string, Cell>, poll: nat) {
    forall k :: k in cells && cells[k].samples.Slice? ==>
      InBounds(heap, cells[k].samples) && heap[cells[k].samples.base].poll == poll
  }

  predicate SameArray(a: Slice, b: Slice) {
    a.Slice? && b.Slice? && a.base == b.base
  }

  /** Entries under different keys never share an array. */
  predicate Apart(a: map<string, Cell>, b: map<string, Cell>) {
    forall j, k :: j in a && k in b && SameArray(a[j].samples, b[k].samples) ==> j == k
  }

  /** The arrays that existed before are still there, unchanged. */
  predicate Extends(heap: seq<Array>, h: seq<Array>) {
    |heap| <= |h| && forall i :: 0 <= i < |heap| ==> h[i] == heap[i]
  }

  /** The value copy of one observation: append to a nil slice, which allocates unless there is nothing to append. */
  function CopyCell(heap: seq<Array>, c: Cell, spare: nat, poll: nat): (seq<Array>, Cell) {
    var samples := Read(heap, c.samples);
    if samples == [] then (heap, c.(samples := Nil))
    else (heap + [Array(samples + Zeros(spare), poll)], c.(samples := Slice(|heap|, 0, |samples|)))
  }

  /** The copying loop of buildSnapshot, visiting the keys in some order; null entries are skipped. */
  function CopyAll(heap: seq<Array>, cells: map<string, Option<Cell>>, order: seq<string>, room: map<string, nat>,
                   poll: nat)
    : (seq<Array>, map<string, Cell>)
  {
    if order == [] then (heap, map[]) else
    var (h, prior) := CopyAll(heap, cells, Init(order), room, poll);
    var k := Last(order);
    if k !in cells || cells[k].None? then (h, prior) else
    var (h', c) := CopyCell(h, cells[k].value, if k in room then room[k] else 0, poll);
    (h', prior[k := c])
  }

  ghost predicate AllInBounds(heap: seq<Array>, cells: map<string, Option<Cell>>) {
    forall k :: k in cells && cells[k].Some? ==> InBounds(heap, cells[k].value.samples)
  }

  /** This entry is a copy of that one, in an array allocated since `heap`. */
  predicate CopyOf(heap: seq<Array>, h: seq<Array>, c: Cell, original: Cell) {
    && InBounds(h, c.samples) && ValueOf(h, c) == ValueOf(heap, original)
    && (c.samples.Slice? ==> c.samples.base >= |heap|)
  }

  ghost predicate Private(heap: seq<Array>, cells: map<string, Option<Cell>>, h: seq<Array>, prior: map<string, Cell>) {
    && Apart(prior, prior)
    && forall k :: k in prior ==> k in cells && cells[k].Some? && CopyOf(heap, h, prior[k], cells[k].value)
  }

  lemma CopyCellIsPrivate(heap: seq<Array>, h: seq<Array>, c: Cell, spare: nat, poll: nat)
    requires Extends(heap, h) && InBounds(heap, c.samples)
    ensures var (h', c') := CopyCell(h, c, spare, poll);
      && Extends(h, h') && (forall i :: |h| <= i < |h'| ==> h'[i].poll == poll)
      && CopyOf(heap, h', c', c)
      && (c'.samples.Slice? ==> c'.samples.base >= |h|)
  {
  }

  lemma PrivateGrows(heap: seq<Array>, cells: map<string, Option<Cell>>, h: seq<Array>, prior: map<string, Cell>,
                     h': seq<Array>, k: string, c: Cell)
    requires Private(heap, cells, h, prior) && Extends(h, h')
    requires k in cells && cells[k].Some? && CopyOf(heap, h', c, cells[k].value)
    requires c.samples.Slice? ==> c.samples.base >= |h|
    ensures Private(heap, cells, h', prior[k := c])
  {
    forall j | j in prior ensures CopyOf(heap, h', prior[j], cells[j].value) {
      assert CopyOf(heap, h, prior[j], cells[j].value);
    }
    forall i, j | i in prior && j in prior && SameArray(prior[i].samples, prior[j].samples) ensures i == j { }
    forall j | j in prior ensures !SameArray(prior[j].samples, c.samples) {
      assert CopyOf(heap, h, prior[j], cells[j].value);
    }
  }

  /** The copy has the same values in arrays of its own, one per key, and leaves every older array alone. */
  lemma {:induction false} CopyIsPrivate(heap: seq<Array>, cells: map<string, Option<Cell>>, order: seq<string>,
                                         room: map<string, nat>, poll: nat)
    requires AllInBounds(heap, cells)
    ensures var (h, prior) := CopyAll(heap, cells, order, room, poll);
      && Extends(heap, h)
      && (forall i :: |heap| <= i < |h| ==> h[i].poll == poll)
      && Private(heap, cells, h, prior)
      && (forall k :: k in order && k in cells && cells[k].Some? ==> k in prior)
  {
    if order != [] {
      CopyIsPrivate(heap, cells, Init(order), room, poll);
      var (h, prior) := CopyAll(heap, cells, Init(order), room, poll);
      var k := Last(order);
      assert order == Init(order) + [k];
      if k in cells && cells[k].Some? {
        var spare := if k in room then room[k] else 0;
        var (h', c) := CopyCell(h, cells[k].value, spare, poll);
        CopyCellIsPrivate(heap, h, cells[k].value, spare, poll);
        PrivateGrows(heap, cells, h, prior, h', k, c);
      }
    }
  }

  /** So when the order covers the keys, the snapshot holds the prior observations in arrays of this poll. */
  lemma CopyHasPriorValues(heap: seq<Array>, cells: map<string, Option<Cell>>, order: seq<string>,
                           room: map<string, nat>, poll: nat)
    requires AllInBounds(heap, cells) && forall k :: k in cells ==> k in order
    ensures var (h, prior) := CopyAll(heap, cells, order, room, poll);
      Values(h, prior) == Prior(StoredValues(heap, cells)) && Owned(h, prior, poll)
  {
    CopyIsPrivate(heap, cells, order, room, poll);
    var (h, prior) := CopyAll(heap, cells, order, room, poll);
    var stored := StoredValues(heap, cells);
    forall k | k in prior ensures k in Prior(stored) && ValueOf(h, prior[k]) == Prior(stored)[k]
                          && (prior[k].samples.Slice? ==>
                            InBounds(h, prior[k].samples) && h[prior[k].samples.base].poll == poll) {
      assert CopyOf(heap, h, prior[k], cells[k].value);
    }
    forall k | k in Prior(stored) ensures k in prior {
      assert k in cells && cells[k].Some?;
    }
  }
}
