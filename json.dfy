/**
 * A parsed API-description document as the lint rules see it: a JSON value,
 * with JavaScript's property lookup (`obj.key`), truthiness (`!!x`), the
 * iteration order of lodash `each`, and the deep structural equality of
 * lodash `isEqual`.
 */
module Json {

  datatype Option<+T> = None | Some(value: T)

  /** A JSON value. An object keeps its entries in document order. */
  datatype Json =
    | JNull
    | JBool(b: bool)
    | JNum(n: int)
    | JStr(s: string)
    | JArr(items: seq<Json>)
    | JObj(fields: seq<(string, Json)>)

  /** One step of a path: a property name or an array index. */
  datatype Step = Key(name: string) | Index(i: nat)

  type Path = seq<Step>

  /** `obj[key]` over an object's entries: the value of the first entry named `key`, or `undefined` (None). */
  function Lookup(fields: seq<(string, Json)>, key: string): (r: Option<Json>)
    ensures r.None? <==> forall i :: 0 <= i < |fields| ==> fields[i].0 != key
    ensures r.Some? ==> (key, r.value) in fields
  {
    if fields == [] then None
    else if fields[0].0 == key then Some(fields[0].1)
    else Lookup(fields[1..], key)
  }

  /** `j.key`: only an object has properties of its own; on any other value the lookup is `undefined`. */
  function Get(j: Json, key: string): Option<Json>
  {
    match j
    case JObj(fields) => Lookup(fields, key)
    case _ => None
  }

  /** JavaScript truthiness of a JSON value. */
  predicate Truthy(j: Json)
  {
    match j
    case JNull => false
    case JBool(b) => b
    case JNum(n) => n != 0
    case JStr(s) => s != ""
    case JArr(_) => true
    case JObj(_) => true
  }

  /** Truthiness of a property read: `undefined` is falsy. */
  predicate Present(o: Option<Json>)
  {
    o.Some? && Truthy(o.value)
  }

  /** The keys of an object, in document order; a non-object contributes none that matter here. */
  function Keys(j: Json): (ks: seq<string>)
    ensures j.JObj? ==> |ks| == |j.fields| && forall i :: 0 <= i < |ks| ==> ks[i] == j.fields[i].0
    ensures !j.JObj? ==> ks == []
  {
    match j
    case JObj(fields) => KeysOf(fields)
    case _ => []
  }

  /** The keys of a list of entries, in order. */
  function KeysOf(fields: seq<(string, Json)>): (ks: seq<string>)
    ensures |ks| == |fields| && forall i :: 0 <= i < |ks| ==> ks[i] == fields[i].0
  {
    seq(|fields|, i requires 0 <= i < |fields| => fields[i].0)
  }

  // ---------------------------------------------------------------------
  // The order of `Object.keys`
  // ---------------------------------------------------------------------

  predicate IsDigits(s: string)
  {
    forall k :: 0 <= k < |s| ==> '0' <= s[k] <= '9'
  }

  /** The number a string of decimal digits denotes. */
  function DecimalValue(s: string): nat
    requires IsDigits(s)
  {
    if s == [] then 0 else DecimalValue(s[..|s| - 1]) * 10 + (s[|s| - 1] as int - '0' as int)
  }

  /**
   * A key that JavaScript treats as an array index: `0`, or decimal digits
   * without a leading zero denoting a number below 2^32 - 1.
   */
  predicate IsArrayIndex(k: string)
  {
    |k| >= 1 && IsDigits(k) && (k[0] != '0' || |k| == 1) && DecimalValue(k) < 0xFFFF_FFFF
  }

  /** The number an array-index key denotes; -1 for any other key. */
  function IndexValue(k: string): int
  {
    if IsArrayIndex(k) then DecimalValue(k) else -1
  }

  /** The entries whose keys are array indices, in insertion order. */
  function IndexEntries(fields: seq<(string, Json)>): (r: seq<(string, Json)>)
    ensures forall i :: 0 <= i < |r| ==> IsArrayIndex(r[i].0)
  {
    if fields == [] then []
    else
      var last := fields[|fields| - 1];
      IndexEntries(fields[..|fields| - 1]) + (if IsArrayIndex(last.0) then [last] else [])
  }

  /** The entries whose keys are not array indices, in insertion order. */
  function NamedEntries(fields: seq<(string, Json)>): (r: seq<(string, Json)>)
    ensures forall i :: 0 <= i < |r| ==> !IsArrayIndex(r[i].0)
  {
    if fields == [] then []
    else
      var last := fields[|fields| - 1];
      NamedEntries(fields[..|fields| - 1]) + (if IsArrayIndex(last.0) then [] else [last])
  }

  predicate Ascending(es: seq<(string, Json)>)
  {
    forall i, j :: 0 <= i < j < |es| ==> IndexValue(es[i].0) <= IndexValue(es[j].0)
  }

  /** Inserts `e` into `sorted` after every entry whose index is not greater than its own. */
  function InsertByIndex(e: (string, Json), sorted: seq<(string, Json)>): (r: seq<(string, Json)>)
    requires Ascending(sorted)
    ensures Ascending(r)
    ensures multiset(r) == multiset(sorted) + multiset{e}
  {
    if sorted == [] then [e]
    else if IndexValue(e.0) < IndexValue(sorted[0].0) then [e] + sorted
    else
      var rest := InsertByIndex(e, sorted[1..]);
      assert sorted == [sorted[0]] + sorted[1..];
      InsertedAfterHead(e, sorted, rest);
      [sorted[0]] + rest
  }

  /** What is inserted after the head of an ascending list still sorts after it. */
  lemma InsertedAfterHead(e: (string, Json), sorted: seq<(string, Json)>, rest: seq<(string, Json)>)
    requires sorted != [] && Ascending(sorted) && Ascending(rest)
    requires IndexValue(sorted[0].0) <= IndexValue(e.0)
    requires multiset(rest) == multiset(sorted[1..]) + multiset{e}
    ensures Ascending([sorted[0]] + rest)
  {
    forall k | 0 <= k < |rest|
      ensures IndexValue(sorted[0].0) <= IndexValue(rest[k].0)
    {
      assert rest[k] in multiset(rest);
      if rest[k] != e {
        assert rest[k] in sorted[1..];
        var m :| 0 <= m < |sorted[1..]| && sorted[1..][m] == rest[k];
        assert sorted[m + 1] == rest[k];
      }
    }
    var all := [sorted[0]] + rest;
    forall i, j | 0 <= i < j < |all|
      ensures IndexValue(all[i].0) <= IndexValue(all[j].0)
    {
      assert all[j] == rest[j - 1];
      if i > 0 {
        assert all[i] == rest[i - 1];
      }
    }
  }

  /** The entries sorted by the number their keys denote (an insertion sort, stable). */
  function SortByIndex(es: seq<(string, Json)>): (r: seq<(string, Json)>)
    ensures Ascending(r)
    ensures multiset(r) == multiset(es)
  {
    if es == [] then []
    else
      assert es == [es[0]] + es[1..];
      InsertByIndex(es[0], SortByIndex(es[1..]))
  }

  /**
   * The entries of an object in the order `Object.keys` lists their keys:
   * the array-index keys first, by ascending number, then every other key in
   * insertion order (document order for a parsed document).
   */
  function OwnKeyOrder(fields: seq<(string, Json)>): (ordered: seq<(string, Json)>)
    ensures |ordered| == |fields|
  {
    EntriesLength(fields);
    SortByIndex(IndexEntries(fields)) + NamedEntries(fields)
  }

  /**
   * `OwnKeyOrder` is a permutation of the entries that puts every array-index
   * key ahead of the other keys, the array indices in ascending numeric order,
   * and keeps the other keys in their insertion order.
   */
  lemma OwnKeyOrderSpec(fields: seq<(string, Json)>)
    ensures multiset(OwnKeyOrder(fields)) == multiset(fields)
    ensures var ordered := OwnKeyOrder(fields);
      forall i, j :: 0 <= i < j < |ordered| && IsArrayIndex(ordered[j].0) ==>
        IsArrayIndex(ordered[i].0) && DecimalValue(ordered[i].0) <= DecimalValue(ordered[j].0)
    ensures NamedEntries(OwnKeyOrder(fields)) == NamedEntries(fields)
  {
    var indexed := SortByIndex(IndexEntries(fields));
    var named := NamedEntries(fields);
    assert OwnKeyOrder(fields) == indexed + named;
    EntriesPartition(fields);
    SortedIndicesAreIndices(IndexEntries(fields), indexed);
    IndicesBeforeNames(indexed, named);
    NamedEntriesAppend(indexed, named);
    NamedEntriesOfIndices(indexed);
    NamedEntriesIdempotent(fields);
  }

  lemma EntriesLength(fields: seq<(string, Json)>)
    ensures |SortByIndex(IndexEntries(fields))| + |NamedEntries(fields)| == |fields|
  {
    EntriesPartition(fields);
    var indexed := SortByIndex(IndexEntries(fields));
    assert |multiset(indexed)| == |indexed|;
    assert |multiset(NamedEntries(fields))| == |NamedEntries(fields)|;
  }

  /** Sorted array-index entries followed by other entries keep every array-index key ahead of, and in order with, the later ones. */
  lemma IndicesBeforeNames(indexed: seq<(string, Json)>, named: seq<(string, Json)>)
    requires Ascending(indexed)
    requires forall i :: 0 <= i < |indexed| ==> IsArrayIndex(indexed[i].0)
    requires forall i :: 0 <= i < |named| ==> !IsArrayIndex(named[i].0)
    ensures forall i, j :: 0 <= i < j < |indexed + named| && IsArrayIndex((indexed + named)[j].0) ==>
              IsArrayIndex((indexed + named)[i].0) && DecimalValue((indexed + named)[i].0) <= DecimalValue((indexed + named)[j].0)
  {
    var all := indexed + named;
    forall i, j | 0 <= i < j < |all| && IsArrayIndex(all[j].0)
      ensures IsArrayIndex(all[i].0) && DecimalValue(all[i].0) <= DecimalValue(all[j].0)
    {
      assert all[i] == indexed[i] && all[j] == indexed[j];
      assert IndexValue(indexed[i].0) <= IndexValue(indexed[j].0);
    }
  }

  lemma {:induction false} EntriesPartition(fields: seq<(string, Json)>)
    ensures multiset(IndexEntries(fields)) + multiset(NamedEntries(fields)) == multiset(fields)
    decreases |fields|
  {
    if fields != [] {
      var init := fields[..|fields| - 1];
      EntriesPartition(init);
      assert fields == init + [fields[|fields| - 1]];
    }
  }

  lemma SortedIndicesAreIndices(es: seq<(string, Json)>, sorted: seq<(string, Json)>)
    requires forall i :: 0 <= i < |es| ==> IsArrayIndex(es[i].0)
    requires multiset(sorted) == multiset(es)
    ensures forall i :: 0 <= i < |sorted| ==> IsArrayIndex(sorted[i].0)
  {
    forall i | 0 <= i < |sorted|
      ensures IsArrayIndex(sorted[i].0)
    {
      assert sorted[i] in multiset(es);
    }
  }

  lemma {:induction false} NamedEntriesAppend(a: seq<(string, Json)>, b: seq<(string, Json)>)
    ensures NamedEntries(a + b) == NamedEntries(a) + NamedEntries(b)
    decreases |b|
  {
    if b == [] {
      assert a + b == a;
    } else {
      var init := b[..|b| - 1];
      NamedEntriesAppend(a, init);
      assert (a + b)[..|a + b| - 1] == a + init;
    }
  }

  lemma {:induction false} NamedEntriesOfIndices(es: seq<(string, Json)>)
    requires forall i :: 0 <= i < |es| ==> IsArrayIndex(es[i].0)
    ensures NamedEntries(es) == []
    decreases |es|
  {
    if es != [] {
      NamedEntriesOfIndices(es[..|es| - 1]);
    }
  }

  lemma {:induction false} NamedEntriesIdempotent(fields: seq<(string, Json)>)
    ensures NamedEntries(NamedEntries(fields)) == NamedEntries(fields)
    decreases |fields|
  {
    if fields != [] {
      var init := fields[..|fields| - 1];
      var last := fields[|fields| - 1];
      NamedEntriesIdempotent(init);
      NamedEntriesAppend(NamedEntries(init), if IsArrayIndex(last.0) then [] else [last]);
      if !IsArrayIndex(last.0) {
        assert [last][..0] == [];
      }
    }
  }

  /** Every key of a permutation of `b` is a key of `b`. */
  lemma SameKeys(a: seq<(string, Json)>, b: seq<(string, Json)>)
    requires multiset(a) == multiset(b)
    ensures forall k :: k in KeysOf(a) ==> k in KeysOf(b)
  {
    forall k | k in KeysOf(a)
      ensures k in KeysOf(b)
    {
      var i :| 0 <= i < |a| && KeysOf(a)[i] == k;
      assert a[i] in multiset(b);
      var m :| 0 <= m < |b| && b[m] == a[i];
      assert KeysOf(b)[m] == k;
    }
  }

  /**
   * `Object.keys(j)` for an object: its keys in the order `OwnKeyOrder` gives
   * them. For any other value it is `[]`, although JavaScript lists the index
   * keys of a string or an array; no index key is an HTTP method, so filtering
   * either list to the operations gives the same result.
   */
  function ObjectKeys(j: Json): (ks: seq<string>)
    ensures forall k :: k in ks <==> k in Keys(j)
  {
    match j
    case JObj(fields) =>
      var ordered := OwnKeyOrder(fields);
      OwnKeyOrderSpec(fields);
      SameKeys(ordered, fields);
      SameKeys(fields, ordered);
      KeysOf(ordered)
    case _ => []
  }

  /** The direct children of a container with the step that reaches each; every child is smaller than its parent. */
  function Children(j: Json): (kids: seq<(Step, Json)>)
    ensures forall i :: 0 <= i < |kids| ==> kids[i].1 < j
    ensures !j.JArr? && !j.JObj? ==> kids == []
  {
    match j
    case JArr(items) => seq(|items|, i requires 0 <= i < |items| => (Index(i), items[i]))
    case JObj(fields) => seq(|fields|, i requires 0 <= i < |fields| => (Key(fields[i].0), fields[i].1))
    case _ => []
  }

  /**
   * What lodash `each` hands its callback: the entries of an object in the
   * order of `Object.keys`, the elements of an array, the one-character
   * strings of a string (which lodash treats as array-like), and nothing for
   * null, booleans and numbers.
   */
  function EachEntries(j: Json): (entries: seq<(Step, Json)>)
    ensures j.JStr? ==> |entries| == |j.s| && forall i :: 0 <= i < |entries| ==> entries[i].1.JStr?
    ensures j.JArr? ==> entries == Children(j)
    ensures j.JObj? ==> |entries| == |j.fields|
    ensures j.JNull? || j.JBool? || j.JNum? ==> entries == []
  {
    match j
    case JStr(s) => seq(|s|, i requires 0 <= i < |s| => (Index(i), JStr([s[i]])))
    case JObj(fields) => ObjectEntries(fields)
    case _ => Children(j)
  }

  /** The entries of an object as `each` hands them over: in `Object.keys` order, each with its key as a step. */
  function ObjectEntries(fields: seq<(string, Json)>): (entries: seq<(Step, Json)>)
    ensures |entries| == |fields|
  {
    var ordered := OwnKeyOrder(fields);
    seq(|ordered|, i requires 0 <= i < |ordered| => (Key(ordered[i].0), ordered[i].1))
  }

  /**
   * The value of a document up to what lodash `isEqual` can tell apart:
   * arrays compare element by element, objects compare as key-to-value maps,
   * so the order of an object's keys does not matter.
   */
  datatype Canonical =
    | CNull
    | CBool(b: bool)
    | CNum(n: int)
    | CStr(s: string)
    | CArr(items: seq<Canonical>)
    | CObj(fields: map<string, Canonical>)

  function Canon(j: Json): Canonical
    decreases j, 1
  {
    match j
    case JNull => CNull
    case JBool(b) => CBool(b)
    case JNum(n) => CNum(n)
    case JStr(s) => CStr(s)
    case JArr(items) => CArr(seq(|items|, i requires 0 <= i < |items| => Canon(items[i])))
    case JObj(fields) => CObj(CanonFields(j, fields))
  }

  /** The key-to-value map of an object's entries; where a key repeats, its first entry wins, as in `Lookup`. */
  function CanonFields(parent: Json, fields: seq<(string, Json)>): (m: map<string, Canonical>)
    requires forall i :: 0 <= i < |fields| ==> fields[i].1 < parent
    ensures m.Keys == set i | 0 <= i < |fields| :: fields[i].0
    decreases parent, 0, |fields|
  {
    if fields == [] then map[]
    else CanonFields(parent, fields[1..])[fields[0].0 := Canon(fields[0].1)]
  }

  /** lodash `isEqual` on two documents. */
  predicate DeepEqual(a: Json, b: Json)
  {
    Canon(a) == Canon(b)
  }

  /** `isEqual` ignores the order of an object's keys: swapping two entries with different keys keeps the object equal. */
  lemma {:induction false} DeepEqualIgnoresKeyOrder(front: seq<(string, Json)>, f: (string, Json), g: (string, Json), rest: seq<(string, Json)>)
    requires f.0 != g.0
    ensures DeepEqual(JObj(front + [f, g] + rest), JObj(front + [g, f] + rest))
  {
    var a, b := JObj(front + [f, g] + rest), JObj(front + [g, f] + rest);
    assert CanonFields(a, front + [f, g] + rest) == CanonFields(b, front + [g, f] + rest) by {
      CanonFieldsSwap(a, b, front, f, g, rest);
    }
  }

  lemma {:induction false} CanonFieldsSwap(pa: Json, pb: Json, front: seq<(string, Json)>, f: (string, Json), g: (string, Json), rest: seq<(string, Json)>)
    requires f.0 != g.0
    requires forall i :: 0 <= i < |front + [f, g] + rest| ==> (front + [f, g] + rest)[i].1 < pa
    requires forall i :: 0 <= i < |front + [g, f] + rest| ==> (front + [g, f] + rest)[i].1 < pb
    ensures CanonFields(pa, front + [f, g] + rest) == CanonFields(pb, front + [g, f] + rest)
    decreases |front|
  {
    var xs, ys := front + [f, g] + rest, front + [g, f] + rest;
    if front == [] {
      assert xs[1..][1..] == rest && ys[1..][1..] == rest;
      CanonFieldsIgnoresParent(pa, pb, rest);
    } else {
      assert xs[1..] == front[1..] + [f, g] + rest;
      assert ys[1..] == front[1..] + [g, f] + rest;
      CanonFieldsSwap(pa, pb, front[1..], f, g, rest);
    }
  }

  /** The parent passed to `CanonFields` only bounds the recursion; the map does not depend on it. */
  lemma {:induction false} CanonFieldsIgnoresParent(pa: Json, pb: Json, fields: seq<(string, Json)>)
    requires forall i :: 0 <= i < |fields| ==> fields[i].1 < pa
    requires forall i :: 0 <= i < |fields| ==> fields[i].1 < pb
    ensures CanonFields(pa, fields) == CanonFields(pb, fields)
    decreases |fields|
  {
    if fields != [] {
      CanonFieldsIgnoresParent(pa, pb, fields[1..]);
    }
  }

  /** The map `CanonFields` builds holds exactly the keys `Lookup` finds, each with the canonical form of the value it finds. */
  lemma {:induction false} CanonFieldsLookup(parent: Json, fields: seq<(string, Json)>, key: string)
    requires forall i :: 0 <= i < |fields| ==> fields[i].1 < parent
    ensures key in CanonFields(parent, fields) <==> Lookup(fields, key).Some?
    ensures Lookup(fields, key).Some? ==> CanonFields(parent, fields)[key] == Canon(Lookup(fields, key).value)
    decreases |fields|
  {
    if fields != [] && fields[0].0 != key {
      CanonFieldsLookup(parent, fields[1..], key);
    }
  }

  /** Deeply equal objects have the same properties, and deeply equal values under each of them. */
  lemma DeepEqualSameProperty(a: Json, b: Json, key: string)
    requires DeepEqual(a, b) && a.JObj?
    ensures b.JObj?
    ensures Get(a, key).Some? <==> Get(b, key).Some?
    ensures Get(a, key).Some? ==> DeepEqual(Get(a, key).value, Get(b, key).value)
  {
    CanonFieldsLookup(a, a.fields, key);
    CanonFieldsLookup(b, b.fields, key);
  }
}
