/** The two ways monitor.go evicts by age: deleting a prefix of a list sorted by LastSeen, and
    deleting a minimum over and over. Map order and unstable sorting decide ties. */
module Eviction {
  import opened Base

  /** An entry of the list that is sorted. */
  datatype Item<K> = Item(key: K, lastSeen: Time)

  /** Some k oldest keys: no key that stays is older than a key that goes. */
  ghost predicate OldestK<K(!new)>(ages: map<K, Time>, gone: set<K>, k: nat) {
    && gone <= ages.Keys
    && |gone| == k
    && forall d, s :: d in gone && s in ages.Keys - gone ==> ages[d] <= ages[s]
  }

  /** How many of the keys carry this age. Over all ages, this is the multiset of ages. */
  ghost function CountAt<K(!new)>(ages: map<K, Time>, keys: set<K>, age: Time): nat {
    |set k | k in keys && k in ages && ages[k] == age|
  }

  lemma CountAtAdd<K(!new)>(ages: map<K, Time>, keys: set<K>, x: K, age: Time)
    requires x in ages && x !in keys
    ensures CountAt(ages, keys + {x}, age) == CountAt(ages, keys, age) + (if ages[x] == age then 1 else 0)
  {
    var before := set k | k in keys && k in ages && ages[k] == age;
    var after := set k | k in keys + {x} && k in ages && ages[k] == age;
    assert after == if ages[x] == age then before + {x} else before;
  }

  lemma SubsetOfSameSize<K>(a: set<K>, b: set<K>)
    requires a <= b && |a| == |b|
    ensures a == b
  {
    assert b == a + (b - a);
  }

  lemma RemovalCount<K, V>(m: map<K, V>, gone: set<K>)
    requires gone <= m.Keys
    ensures |m - gone| == |m| - |gone|
  {
    assert (m - gone).Keys == m.Keys - gone;
  }

  lemma LargerMinusSmaller<K(!new)>(a: set<K>, b: set<K>) returns (x: K)
    requires |a| == |b| && a != b
    ensures x in a && x !in b
  {
    if a <= b {
      SubsetOfSameSize(a, b);
      assert false;
    }
    x :| x in a && x !in b;
  }

  lemma SwapKeepsOldest<K(!new)>(ages: map<K, Time>, gone: set<K>, x: K, y: K, k: nat)
    requires OldestK(ages, gone, k)
    requires x in gone && y in ages && y !in gone && ages[x] == ages[y]
    ensures OldestK(ages, gone - {x} + {y}, k)
  {
    forall d, s | d in gone - {x} + {y} && s in ages.Keys - (gone - {x} + {y}) ensures ages[d] <= ages[s] {
      var d', s' := if d == y then x else d, if s == x then y else s;
      assert d' in gone && s' in ages.Keys - gone;
    }
  }

  /** Whatever k oldest keys go, the ages that stay are the same. */
  lemma {:induction false} EvictionsAgree<K(!new)>(ages: map<K, Time>, d1: set<K>, d2: set<K>, k: nat, age: Time)
    requires OldestK(ages, d1, k) && OldestK(ages, d2, k)
    ensures CountAt(ages, ages.Keys - d1, age) == CountAt(ages, ages.Keys - d2, age)
    decreases |d1 - d2|
  {
    if d1 != d2 {
      var x := LargerMinusSmaller(d1, d2);
      var y := LargerMinusSmaller(d2, d1);
      assert ages[x] == ages[y];
      SwapKeepsOldest(ages, d1, x, y, k);
      SwapKeepsCounts(ages, d1, x, y, age);
      assert d1 - {x} + {y} - d2 == (d1 - d2) - {x};
      EvictionsAgree(ages, d1 - {x} + {y}, d2, k, age);
    }
  }

  lemma SwapKeepsCounts<K(!new)>(ages: map<K, Time>, gone: set<K>, x: K, y: K, age: Time)
    requires x in gone && gone <= ages.Keys && y in ages && y !in gone && ages[x] == ages[y]
    ensures CountAt(ages, ages.Keys - gone, age) == CountAt(ages, ages.Keys - (gone - {x} + {y}), age)
  {
    var kept := ages.Keys - gone - {y};
    assert ages.Keys - gone == kept + {y} && ages.Keys - (gone - {x} + {y}) == kept + {x};
    CountAtAdd(ages, kept, y, age);
    CountAtAdd(ages, kept, x, age);
  }

  // ----- the sorted prefix -----

  ghost predicate Sorted<K>(items: seq<Item<K>>) {
    forall i, j :: 0 <= i < j < |items| ==> items[i].lastSeen <= items[j].lastSeen
  }

  /** The items list every key of the map once, with its age. */
  ghost predicate Lists<K(!new)>(items: seq<Item<K>>, ages: map<K, Time>) {
    && (forall i :: 0 <= i < |items| ==> items[i].key in ages && items[i].lastSeen == ages[items[i].key])
    && (forall i, j :: 0 <= i < j < |items| ==> items[i].key != items[j].key)
    && (forall k :: k in ages ==> exists i :: 0 <= i < |items| && items[i].key == k)
  }

  ghost function KeysOf<K(!new)>(items: seq<Item<K>>): set<K> {
    set i | 0 <= i < |items| :: items[i].key
  }

  lemma {:induction false} DistinctCount<K(!new)>(items: seq<Item<K>>)
    requires forall i, j :: 0 <= i < j < |items| ==> items[i].key != items[j].key
    ensures |KeysOf(items)| == |items|
  {
    if items != [] {
      var init, last := items[..|items| - 1], items[|items| - 1];
      DistinctCount(init);
      assert forall i :: 0 <= i < |init| ==> init[i] == items[i];
      assert KeysOf(items) == KeysOf(init) + {last.key} by {
        forall k | k in KeysOf(items) ensures k in KeysOf(init) + {last.key} {
          var i :| 0 <= i < |items| && items[i].key == k;
          if i < |init| { assert init[i].key == k; }
        }
        forall k | k in KeysOf(init) ensures k in KeysOf(items) {
          var i :| 0 <= i < |init| && init[i].key == k;
          assert items[i].key == k;
        }
      }
      assert last.key !in KeysOf(init);
    }
  }

  lemma PrefixKeys<K(!new)>(items: seq<Item<K>>, k: nat)
    requires k <= |items|
    ensures forall m :: 0 <= m < k ==> items[m].key in KeysOf(items[..k])
  {
    forall m | 0 <= m < k ensures items[m].key in KeysOf(items[..k]) {
      assert items[..k][m] == items[m];
    }
  }

  /** The first k entries of a sorted list of a map are some k oldest keys. */
  lemma PrefixIsOldest<K(!new)>(items: seq<Item<K>>, ages: map<K, Time>, k: nat)
    requires Sorted(items) && Lists(items, ages) && k <= |items|
    ensures OldestK(ages, KeysOf(items[..k]), k)
  {
    DistinctCount(items[..k]);
    PrefixKeys(items, k);
    forall d, s | d in KeysOf(items[..k]) && s in ages.Keys - KeysOf(items[..k])
      ensures ages[d] <= ages[s]
    {
      var i :| 0 <= i < |items[..k]| && items[..k][i].key == d;
      var j :| 0 <= j < |items| && items[j].key == s;
      assert items[i].key == d;
    }
    forall d | d in KeysOf(items[..k]) ensures d in ages {
      var i :| 0 <= i < |items[..k]| && items[..k][i].key == d;
      assert items[i].key == d;
    }
  }

  lemma ListsCount<K(!new)>(items: seq<Item<K>>, ages: map<K, Time>)
    requires Lists(items, ages)
    ensures |items| == |ages|
  {
    DistinctCount(items);
    assert KeysOf(items) == ages.Keys;
  }

  method Insert<K(==)>(sorted: seq<Item<K>>, x: Item<K>) returns (r: seq<Item<K>>)
    requires Sorted(sorted)
    ensures Sorted(r) && multiset(r) == multiset(sorted) + multiset{x}
  {
    var at := 0;
    while at < |sorted| && sorted[at].lastSeen <= x.lastSeen
      invariant 0 <= at <= |sorted|
      invariant forall j :: 0 <= j < at ==> sorted[j].lastSeen <= x.lastSeen
    {
      at := at + 1;
    }
    assert sorted == sorted[..at] + sorted[at..];
    SortedSlices(sorted, at);
    InsertedIsSorted(sorted[..at], x, sorted[at..]);
    r := sorted[..at] + [x] + sorted[at..];
  }

  lemma SortedConcat<K>(a: seq<Item<K>>, b: seq<Item<K>>)
    requires Sorted(a) && Sorted(b)
    requires forall i, j :: 0 <= i < |a| && 0 <= j < |b| ==> a[i].lastSeen <= b[j].lastSeen
    ensures Sorted(a + b)
  {
  }

  lemma SortedSlices<K>(s: seq<Item<K>>, at: nat)
    requires Sorted(s) && at <= |s|
    ensures Sorted(s[..at]) && Sorted(s[at..])
    ensures forall j :: 0 <= j < |s[at..]| ==> s[at..][0].lastSeen <= s[at..][j].lastSeen
  {
  }

  lemma InsertedIsSorted<K>(a: seq<Item<K>>, x: Item<K>, b: seq<Item<K>>)
    requires Sorted(a) && Sorted(b)
    requires forall i :: 0 <= i < |a| ==> a[i].lastSeen <= x.lastSeen
    requires forall j :: 0 <= j < |b| ==> x.lastSeen <= b[j].lastSeen
    ensures Sorted(a + [x] + b)
  {
    hide Sorted;
    assert Sorted([x]) by { SortedOne(x); }
    SortedConcat(a, [x]);
    SortedConcat(a + [x], b);
  }

  lemma SortedOne<K>(x: Item<K>)
    ensures Sorted([x])
  {
  }

  /** sort.Slice by age. The contract leaves the order of equal ages open. */
  method SortByAge<K(==)>(items: seq<Item<K>>) returns (sorted: seq<Item<K>>)
    ensures Sorted(sorted) && multiset(sorted) == multiset(items)
  {
    sorted := [];
    for i := 0 to |items|
      invariant Sorted(sorted) && multiset(sorted) == multiset(items[..i])
    {
      assert items[..i + 1] == items[..i] + [items[i]];
      sorted := Insert(sorted, items[i]);
    }
    assert items[..|items|] == items;
  }

  /** Reordering a list of a map leaves a list of that map. */
  lemma ReorderedLists<K(!new)>(items: seq<Item<K>>, sorted: seq<Item<K>>, ages: map<K, Time>)
    requires Lists(items, ages) && multiset(items) == multiset(sorted)
    ensures Lists(sorted, ages)
  {
    forall i | 0 <= i < |sorted| ensures sorted[i].key in ages && sorted[i].lastSeen == ages[sorted[i].key] {
      assert sorted[i] in multiset(items);
    }
    forall i, j | 0 <= i < j < |sorted| ensures sorted[i].key != sorted[j].key {
      if sorted[i].key == sorted[j].key {
        assert sorted[i] in multiset(items) && sorted[j] in multiset(items);
        assert sorted[i] == sorted[j];
        assert sorted == sorted[..j] + [sorted[j]] + sorted[j + 1..];
        assert sorted[i] in multiset(sorted[..j]) by { assert sorted[..j][i] == sorted[i]; }
        assert multiset(sorted)[sorted[i]] >= 2;
        OccursOnce(items, sorted[i]);
        assert false;
      }
    }
    forall k | k in ages ensures exists i :: 0 <= i < |sorted| && sorted[i].key == k {
      var i :| 0 <= i < |items| && items[i].key == k;
      assert items[i] in multiset(sorted);
    }
  }

  lemma {:induction false} OccursOnce<K>(items: seq<Item<K>>, x: Item<K>)
    requires forall i, j :: 0 <= i < j < |items| ==> items[i].key != items[j].key
    ensures multiset(items)[x] <= 1
  {
    if items != [] {
      var init, last := items[..|items| - 1], items[|items| - 1];
      assert items == init + [last];
      OccursOnce(init, x);
      assert forall i :: 0 <= i < |init| ==> init[i] == items[i] && init[i] != last;
      assert last !in init;
    }
  }

  // ----- the repeated minimum -----

  /** The keys are taken out one after another, each a minimum of what is left. */
  ghost predicate MinimaInTurn<K(!new)>(ages: map<K, Time>, order: seq<K>) {
    order == [] ||
    (order[0] in ages
     && (forall s :: s in ages ==> ages[order[0]] <= ages[s])
     && MinimaInTurn(ages - {order[0]}, order[1..]))
  }

  /** Deleting a minimum k times removes some k oldest keys. */
  lemma {:induction false} RepeatedMinimumIsOldest<K(!new)>(ages: map<K, Time>, order: seq<K>)
    requires MinimaInTurn(ages, order)
    ensures OldestK(ages, set k | k in order, |order|)
  {
    if order != [] {
      var first, others := order[0], ages - {order[0]};
      RepeatedMinimumIsOldest(others, order[1..]);
      var rest := set k | k in order[1..];
      assert order == [first] + order[1..];
      assert (set k | k in order) == rest + {first};
      assert first !in rest;
      forall d, s | d in rest + {first} && s in ages.Keys - (rest + {first}) ensures ages[d] <= ages[s] {
        if d != first { assert s in others.Keys - rest && others[d] <= others[s]; }
      }
    }
  }

  /** The sorted prefix and the repeated minimum leave the same multiset of ages behind. */
  lemma AlgorithmsAgree<K(!new)>(ages: map<K, Time>, items: seq<Item<K>>, order: seq<K>, age: Time)
    requires Sorted(items) && Lists(items, ages) && |order| <= |items|
    requires MinimaInTurn(ages, order)
    ensures CountAt(ages, ages.Keys - KeysOf(items[..|order|]), age)
         == CountAt(ages, ages.Keys - (set k | k in order), age)
  {
    PrefixIsOldest(items, ages, |order|);
    RepeatedMinimumIsOldest(ages, order);
    EvictionsAgree(ages, KeysOf(items[..|order|]), set k | k in order, |order|, age);
  }

  // ----- the scan of pruneOldestObservation -----

  /** What the scan holds after visiting the items in this order: the key "" doubles as "nothing yet". */
  function Scan(items: seq<Item<string>>): (r: Item<string>)
  {
    if items == [] then Item("", ZERO_TIME)
    else
      var r, x := Scan(items[..|items| - 1]), items[|items| - 1];
      if r.key == "" || x.lastSeen < r.lastSeen then x else r
  }

  /** Without an empty key the scan finds a minimum, in every order. */
  lemma {:induction false} ScanFindsMinimum(items: seq<Item<string>>)
    requires items != []
    requires forall i :: 0 <= i < |items| ==> items[i].key != ""
    ensures Scan(items) in items
    ensures forall i :: 0 <= i < |items| ==> Scan(items).lastSeen <= items[i].lastSeen
  {
    var init := items[..|items| - 1];
    if init != [] {
      ScanFindsMinimum(init);
      forall i | 0 <= i < |items| ensures Scan(items).lastSeen <= items[i].lastSeen {
        if i < |init| { assert items[i] == init[i]; }
      }
      assert Scan(init) in items;
    }
  }

  /** The scan comes back empty-handed exactly when the empty key is visited last and is strictly
      older than every key visited before it; pruneForStateSize then makes no progress. */
  lemma ScanFindsNothingExactly(items: seq<Item<string>>)
    requires items != []
    requires forall i, j :: 0 <= i < j < |items| ==> items[i].key != items[j].key
    ensures Scan(items).key == "" <==>
            (items[|items| - 1].key == ""
             && forall i :: 0 <= i < |items| - 1 ==> items[|items| - 1].lastSeen < items[i].lastSeen)
  {
    var init, x := items[..|items| - 1], items[|items| - 1];
    assert forall i :: 0 <= i < |init| ==> init[i] == items[i];
    if init != [] {
      if x.key == "" {
        ScanFindsMinimum(init);
        var r := Scan(init);
        var i :| 0 <= i < |init| && init[i] == r;
        assert r.key != "" && items[i] == r;
      }
    }
  }

  /** The empty key is there and strictly older than every other one. */
  ghost predicate EmptyIsOldest(ages: map<string, Time>) {
    "" in ages && forall s :: s in ages && s != "" ==> ages[""] < ages[s]
  }

  ghost predicate Minimum<K(!new)>(ages: map<K, Time>, k: K) {
    k in ages && forall s :: s in ages ==> ages[k] <= ages[s]
  }

  /** What a scan may take: an oldest key, but any key once the empty one is strictly oldest. */
  ghost predicate MayTake(ages: map<string, Time>, key: string) {
    key != "" && key in ages && (Minimum(ages, key) || EmptyIsOldest(ages))
  }

  /** An item older than the one found was forgotten at an empty key that is older still. */
  lemma {:induction false} ScanForgets(items: seq<Item<string>>)
    requires forall i, j :: 0 <= i < j < |items| ==> items[i].key != items[j].key
    requires Scan(items).key != ""
    ensures Scan(items) in items
    ensures forall j :: 0 <= j < |items| && items[j].lastSeen < Scan(items).lastSeen && items[j].key != "" ==>
              exists e :: j < e < |items| && items[e].key == "" && items[e].lastSeen < items[j].lastSeen
  {
    var init, x := items[..|items| - 1], items[|items| - 1];
    assert forall i :: 0 <= i < |init| ==> init[i] == items[i];
    if Scan(init).key != "" {
      ScanForgets(init);
      forall j | 0 <= j < |items| && items[j].lastSeen < Scan(items).lastSeen && items[j].key != ""
        ensures exists e :: j < e < |items| && items[e].key == "" && items[e].lastSeen < items[j].lastSeen
      {
        assert init[j].lastSeen < Scan(init).lastSeen;
        var e :| j < e < |init| && init[e].key == "" && init[e].lastSeen < init[j].lastSeen;
        assert items[e].key == "";
      }
    } else if init != [] {
      ScanFindsNothingExactly(init);
      assert items[|init| - 1].key == "";
    }
  }

  /** In every order, the scan ends on a minimum exactly when the empty key is not strictly oldest. */
  lemma ScanFindsMinimumExactly(items: seq<Item<string>>, ages: map<string, Time>)
    requires Lists(items, ages) && items != []
    ensures Minimum(ages, Scan(items).key) && Scan(items).key != "" <==> !EmptyIsOldest(ages)
  {
    var r := Scan(items);
    if r.key == "" {
      ScanFindsNothingExactly(items);
      forall s | s in ages && s != "" ensures ages[""] < ages[s] {
        var i :| 0 <= i < |items| && items[i].key == s;
      }
    } else {
      ScanForgets(items);
      if !EmptyIsOldest(ages) {
        forall s | s in ages ensures ages[r.key] <= ages[s] {
          ForgottenOnlyForOldest(items, ages, s);
        }
      }
    }
  }

  lemma ForgottenOnlyForOldest(items: seq<Item<string>>, ages: map<string, Time>, s: string)
    requires Lists(items, ages) && items != [] && s in ages && Scan(items).key != "" && !EmptyIsOldest(ages)
    ensures Scan(items) in items && Scan(items).lastSeen <= ages[s]
  {
    ScanForgets(items);
    if "" in ages {
      var t :| t in ages && t != "" && ages[t] <= ages[""];
      var k :| 0 <= k < |items| && items[k].key == t;
      assert Scan(items).lastSeen <= items[k].lastSeen;
    }
    var j :| 0 <= j < |items| && items[j].key == s;
    assert Scan(items).lastSeen <= items[j].lastSeen;
  }

  /** With the empty key strictly oldest, some orders make the scan take the newest key. */
  lemma EmptyKeyMisleadsScan(a: Item<string>, empty: Item<string>, b: Item<string>)
    requires empty.key == "" && a.key != "" && b.key != "" && empty.lastSeen < a.lastSeen < b.lastSeen
    ensures Scan([a, empty, b]) == b
  {
    assert [a, empty, b][..2] == [a, empty] && [a, empty][..1] == [a];
    assert Scan([a]) == a && Scan([a, empty]) == empty;
  }
}
