/**
 * frontend/src/app/libs/csvParser.ts without the Blob and DOM download:
 * `flattenObject` turns a tree of objects into one dictionary with dotted
 * keys, `replacer` blanks null and undefined, and `csvDownload` and
 * `downloadList` build the text of the file.
 */
module CsvParser {
  import opened Wrappers
  import opened Text

  /** A value as the dataset holds it; numbers are whole numbers in this model. */
  datatype Json =
    | Null
    | Bool(b: bool)
    | Num(n: int)
    | Str(s: string)
    | Arr(items: seq<Json>)
    | Obj(fields: seq<(string, Json)>)

  /** `typeof v == 'object' && v !== null` */
  predicate IsObject(v: Json)
  {
    v.Arr? || v.Obj?
  }

  /** The number of own enumerable properties `for...in` visits. */
  function Width(ob: Json): nat
  {
    match ob
    case Arr(items) => |items|
    case Obj(fields) => |fields|
    case _ => 0
  }

  /** A plain object built by assignment: keys in insertion order, each key once. */
  type Dict = seq<(string, Json)>

  function Keys(d: Dict): (r: seq<string>)
    ensures |r| == |d|
    ensures forall i :: 0 <= i < |d| ==> r[i] == d[i].0
  {
    if d == [] then [] else [d[0].0] + Keys(d[1..])
  }

  function KeySet(d: Dict): set<string>
  {
    set i | 0 <= i < |d| :: d[i].0
  }

  predicate DistinctKeys(d: Dict)
  {
    forall i, j :: 0 <= i < j < |d| ==> d[i].0 != d[j].0
  }

  /** `d[k]`, None when k is not a key (undefined). */
  function Lookup(d: Dict, k: string): (r: Option<Json>)
    ensures r.Some? <==> k in KeySet(d)
  {
    if d == [] then None else if d[0].0 == k then Some(d[0].1) else Lookup(d[1..], k)
  }

  /** `d[k] = v`: an existing key keeps its place and takes the new value; a new key goes last. */
  function Put(d: Dict, k: string, v: Json): Dict
  {
    if d == [] then [(k, v)]
    else if d[0].0 == k then [(k, v)] + d[1..]
    else [d[0]] + Put(d[1..], k, v)
  }

  /** After `d[k] = v`, k holds v and every other key holds what it held before. */
  lemma {:induction false} PutLookup(d: Dict, k: string, v: Json, x: string)
    ensures Lookup(Put(d, k, v), x) == if x == k then Some(v) else Lookup(d, x)
  {
    if d != [] && d[0].0 != k {
      var rest := Put(d[1..], k, v);
      assert ([d[0]] + rest)[1..] == rest;
      PutLookup(d[1..], k, v, x);
    }
  }

  /** `d[k] = v` adds k to the keys and no other key. */
  lemma {:induction false} PutKeySet(d: Dict, k: string, v: Json)
    ensures KeySet(Put(d, k, v)) == KeySet(d) + {k}
  {
    if d == [] {
      KeySetCons((k, v), d);
      assert [(k, v)] + d == [(k, v)];
    } else {
      assert d == [d[0]] + d[1..];
      KeySetCons(d[0], d[1..]);
      if d[0].0 == k {
        KeySetCons((k, v), d[1..]);
      } else {
        PutKeySet(d[1..], k, v);
        KeySetCons(d[0], Put(d[1..], k, v));
      }
    }
  }

  /** `d[k] = v` never repeats a key. */
  lemma {:induction false} PutDistinct(d: Dict, k: string, v: Json)
    requires DistinctKeys(d)
    ensures DistinctKeys(Put(d, k, v))
  {
    var r := Put(d, k, v);
    if d != [] && d[0].0 == k {
      assert forall i :: 0 <= i < |r| ==> r[i].0 == d[i].0;
    } else if d != [] {
      var rest := Put(d[1..], k, v);
      assert DistinctKeys(d[1..]) by {
        forall a, b | 0 <= a < b < |d[1..]| ensures d[1..][a].0 != d[1..][b].0 {
          assert d[1..][a] == d[a + 1] && d[1..][b] == d[b + 1];
        }
      }
      PutDistinct(d[1..], k, v);
      PutKeySet(d[1..], k, v);
      assert d[0].0 !in KeySet(d[1..]) by {
        forall j | 0 <= j < |d[1..]| ensures d[1..][j].0 != d[0].0 {
          assert d[1..][j] == d[j + 1];
        }
      }
      forall a, b | 0 <= a < b < |r| ensures r[a].0 != r[b].0 {
        assert r[b] == rest[b - 1];
        if a == 0 {
          assert rest[b - 1].0 in KeySet(rest);
        } else {
          assert r[a] == rest[a - 1];
        }
      }
    }
  }

  lemma KeySetCons(p: (string, Json), d: Dict)
    ensures KeySet([p] + d) == {p.0} + KeySet(d)
  {
    var e := [p] + d;
    forall x | x in KeySet(d) ensures x in KeySet(e) {
      var i :| 0 <= i < |d| && d[i].0 == x;
      assert e[i + 1] == d[i];
    }
    forall x | x in KeySet(e) ensures x == p.0 || x in KeySet(d) {
      var i :| 0 <= i < |e| && e[i].0 == x;
      if i > 0 {
        assert d[i - 1] == e[i];
      }
    }
    assert e[0] == p;
  }

  /** The inner loop: `toReturn[i + '.' + x] = flat[x]` for each key x of flat, in order. */
  function PutNested(acc: Dict, i: string, flat: Dict): Dict
  {
    if flat == [] then acc
    else
      var last := flat[|flat| - 1];
      Put(PutNested(acc, i, flat[..|flat| - 1]), i + "." + last.0, last.1)
  }

  /** The key and value of the n-th property `for...in` visits; array indices are numerals. */
  function EntryKey(ob: Json, n: nat): string
    requires n < Width(ob)
  {
    match ob
    case Arr(items) => NatToString(n)
    case Obj(fields) => fields[n].0
  }

  /** The dictionary after the outer loop has visited the first n properties. */
  function FlattenPrefix(ob: Json, n: nat): Dict
    requires n <= Width(ob)
    decreases ob, n
  {
    if n == 0 then []
    else
      var acc := FlattenPrefix(ob, n - 1);
      var k := EntryKey(ob, n - 1);
      match ob
      case Arr(items) =>
        var v := items[n - 1];
        if IsObject(v) then PutNested(acc, k, Flatten(v)) else Put(acc, k, v)
      case Obj(fields) =>
        var v := fields[n - 1].1;
        if IsObject(v) then PutNested(acc, k, Flatten(v)) else Put(acc, k, v)
  }

  /** `flattenObject(ob)` */
  function Flatten(ob: Json): (r: Dict)
    ensures Width(ob) == 0 ==> r == []
    decreases ob, Width(ob) + 1
  {
    FlattenPrefix(ob, Width(ob))
  }

  /** The n-th property value. */
  function EntryValue(ob: Json, n: nat): Json
    requires n < Width(ob)
  {
    match ob
    case Arr(items) => items[n]
    case Obj(fields) => fields[n].1
  }

  /** One step of the outer loop: the n-th property is (k, v). */
  lemma FlattenStep(ob: Json, n: nat, k: string, v: Json)
    requires n < Width(ob) && k == EntryKey(ob, n) && v == EntryValue(ob, n)
    ensures FlattenPrefix(ob, n + 1) ==
              if IsObject(v) then PutNested(FlattenPrefix(ob, n), k, Flatten(v)) else Put(FlattenPrefix(ob, n), k, v)
  {
  }

  /** The inner loop of `flattenObject`: copies every key x of flatObject to `i.x`. */
  method CopyNested(acc: Dict, i: string, flatObject: Dict) returns (toReturn: Dict)
    ensures toReturn == PutNested(acc, i, flatObject)
  {
    toReturn := acc;
    var m := 0;
    while m < |flatObject|
      invariant m <= |flatObject|
      invariant toReturn == PutNested(acc, i, flatObject[..m])
    {
      assert flatObject[..m + 1][..m] == flatObject[..m];
      toReturn := Put(toReturn, i + "." + flatObject[m].0, flatObject[m].1);
      m := m + 1;
    }
    assert flatObject[..m] == flatObject;
  }

  /** `flattenObject`, with the loops of the source. */
  method FlattenObject(ob: Json) returns (toReturn: Dict)
    ensures toReturn == Flatten(ob)
    decreases ob
  {
    toReturn := [];
    var n := 0;
    while n < Width(ob)
      invariant n <= Width(ob)
      invariant toReturn == FlattenPrefix(ob, n)
    {
      var i: string;
      var v: Json;
      match ob {
        case Arr(items) =>
          i, v := NatToString(n), items[n];
        case Obj(fields) =>
          var entry := fields[n];
          i, v := entry.0, entry.1;
      }
      FlattenStep(ob, n, i, v);
      if IsObject(v) {
        var flatObject := FlattenObject(v);
        toReturn := CopyNested(toReturn, i, flatObject);
      } else {
        toReturn := Put(toReturn, i, v);
      }
      n := n + 1;
    }
  }

  // ---------------------------------------------------------------- flattenObject

  /** Every value of the dictionary is a primitive or null. */
  predicate AllPrimitive(d: Dict)
  {
    forall i :: 0 <= i < |d| ==> !IsObject(d[i].1)
  }

  lemma {:induction false} PutKeepsPrimitive(d: Dict, k: string, v: Json)
    requires AllPrimitive(d) && !IsObject(v)
    ensures AllPrimitive(Put(d, k, v))
  {
    if d != [] && d[0].0 != k {
      PutKeepsPrimitive(d[1..], k, v);
    }
  }

  lemma {:induction false} PutNestedKeepsPrimitive(acc: Dict, i: string, flat: Dict)
    requires AllPrimitive(acc) && AllPrimitive(flat)
    ensures AllPrimitive(PutNested(acc, i, flat))
  {
    if flat != [] {
      var last := flat[|flat| - 1];
      PutNestedKeepsPrimitive(acc, i, flat[..|flat| - 1]);
      PutKeepsPrimitive(PutNested(acc, i, flat[..|flat| - 1]), i + "." + last.0, last.1);
    }
  }

  /** The flattened result holds no object or array values: every nested object was flattened into it. */
  lemma {:induction false} FlattenIsPrimitive(ob: Json)
    ensures AllPrimitive(Flatten(ob))
    decreases ob, Width(ob) + 1
  {
    FlattenPrefixIsPrimitive(ob, Width(ob));
  }

  lemma {:induction false} FlattenPrefixIsPrimitive(ob: Json, n: nat)
    requires n <= Width(ob)
    ensures AllPrimitive(FlattenPrefix(ob, n))
    decreases ob, n
  {
    if n > 0 {
      FlattenPrefixIsPrimitive(ob, n - 1);
      var acc := FlattenPrefix(ob, n - 1);
      var k := EntryKey(ob, n - 1);
      match ob
      case Arr(items) =>
        var v := items[n - 1];
        if IsObject(v) {
          FlattenIsPrimitive(v);
          PutNestedKeepsPrimitive(acc, k, Flatten(v));
        } else {
          PutKeepsPrimitive(acc, k, v);
        }
      case Obj(fields) =>
        var entry := fields[n - 1];
        var v := entry.1;
        if IsObject(v) {
          FlattenIsPrimitive(v);
          PutNestedKeepsPrimitive(acc, k, Flatten(v));
        } else {
          PutKeepsPrimitive(acc, k, v);
        }
    }
  }

  lemma {:induction false} PutNestedKeepsDistinct(acc: Dict, i: string, flat: Dict)
    requires DistinctKeys(acc)
    ensures DistinctKeys(PutNested(acc, i, flat))
  {
    if flat != [] {
      var last := flat[|flat| - 1];
      PutNestedKeepsDistinct(acc, i, flat[..|flat| - 1]);
      PutDistinct(PutNested(acc, i, flat[..|flat| - 1]), i + "." + last.0, last.1);
    }
  }

  /** Every key of the flattened result occurs once. */
  lemma {:induction false} FlattenPrefixDistinct(ob: Json, n: nat)
    requires n <= Width(ob)
    ensures DistinctKeys(FlattenPrefix(ob, n))
  {
    if n > 0 {
      FlattenPrefixDistinct(ob, n - 1);
      var v := EntryValue(ob, n - 1);
      FlattenStep(ob, n - 1, EntryKey(ob, n - 1), v);
      if IsObject(v) {
        PutNestedKeepsDistinct(FlattenPrefix(ob, n - 1), EntryKey(ob, n - 1), Flatten(v));
      } else {
        PutDistinct(FlattenPrefix(ob, n - 1), EntryKey(ob, n - 1), v);
      }
    }
  }

  /** The keys `i.x` the inner loop writes for the keys x of flat. */
  function Dotted(i: string, keys: set<string>): set<string>
  {
    set x | x in keys :: i + "." + x
  }

  lemma {:induction false} PutNestedKeys(acc: Dict, i: string, flat: Dict)
    ensures KeySet(PutNested(acc, i, flat)) == KeySet(acc) + Dotted(i, KeySet(flat))
  {
    if flat != [] {
      var front := flat[..|flat| - 1];
      var last := flat[|flat| - 1];
      PutNestedKeys(acc, i, front);
      PutKeySet(PutNested(acc, i, front), i + "." + last.0, last.1);
      assert flat == front + [last];
      KeySetSnoc(front, last);
    } else {
      assert KeySet(flat) == {};
    }
  }

  lemma KeySetSnoc(d: Dict, p: (string, Json))
    ensures KeySet(d + [p]) == KeySet(d) + {p.0}
  {
    var e := d + [p];
    forall x | x in KeySet(e) ensures x in KeySet(d) || x == p.0 {
      var j :| 0 <= j < |e| && e[j].0 == x;
      if j < |d| {
        assert d[j] == e[j];
      }
    }
    forall x | x in KeySet(d) ensures x in KeySet(e) {
      var j :| 0 <= j < |d| && d[j].0 == x;
      assert e[j] == d[j];
    }
    assert e[|d|] == p;
  }

  /** Dropping the last pair of a dictionary without repeated keys. */
  lemma DistinctFront(d: Dict)
    requires DistinctKeys(d) && d != []
    ensures var front := d[..|d| - 1];
            DistinctKeys(front) && d[|d| - 1].0 !in KeySet(front)
  {
    var front := d[..|d| - 1];
    forall a, b | 0 <= a < b < |front| ensures front[a].0 != front[b].0 {
      assert front[a] == d[a] && front[b] == d[b];
    }
  }

  /** The keys a flattening writes, property by property: a primitive its own key, an object its dotted keys. */
  function WrittenKeys(ob: Json, n: nat): set<string>
    requires n <= Width(ob)
    decreases ob, n
  {
    if n == 0 then {}
    else
      var k := EntryKey(ob, n - 1);
      var below := WrittenKeys(ob, n - 1);
      match ob
      case Arr(items) =>
        var v := items[n - 1];
        below + (if IsObject(v) then Dotted(k, KeySet(Flatten(v))) else {k})
      case Obj(fields) =>
        var entry := fields[n - 1];
        var v := entry.1;
        below + (if IsObject(v) then Dotted(k, KeySet(Flatten(v))) else {k})
  }

  /** The keys of the flattened result are exactly the written keys. */
  lemma {:induction false} FlattenKeys(ob: Json, n: nat)
    requires n <= Width(ob)
    ensures KeySet(FlattenPrefix(ob, n)) == WrittenKeys(ob, n)
  {
    if n > 0 {
      FlattenKeys(ob, n - 1);
      var v := EntryValue(ob, n - 1);
      FlattenStep(ob, n - 1, EntryKey(ob, n - 1), v);
      if IsObject(v) {
        PutNestedKeys(FlattenPrefix(ob, n - 1), EntryKey(ob, n - 1), Flatten(v));
      } else {
        PutKeySet(FlattenPrefix(ob, n - 1), EntryKey(ob, n - 1), v);
      }
    } else {
      assert KeySet([]) == {};
    }
  }

  /** An empty nested object or array contributes no keys. */
  lemma EmptyNestedAddsNothing(ob: Json, n: nat)
    requires n < Width(ob) && IsObject(EntryValue(ob, n)) && Width(EntryValue(ob, n)) == 0
    ensures FlattenPrefix(ob, n + 1) == FlattenPrefix(ob, n)
  {
    FlattenStep(ob, n, EntryKey(ob, n), EntryValue(ob, n));
  }

  /** A key with no '.' in it. */
  predicate DotFree(k: string)
  {
    forall i :: 0 <= i < |k| ==> k[i] != '.'
  }

  /** The property keys of ob are pairwise different and contain no '.'. */
  predicate WellKeyed(ob: Json)
  {
    && (forall n :: 0 <= n < Width(ob) ==> DotFree(EntryKey(ob, n)))
    && (forall n, m :: 0 <= n < m < Width(ob) ==> EntryKey(ob, n) != EntryKey(ob, m))
  }

  /** Every array is well keyed: its keys are distinct numerals. */
  lemma ArraysWellKeyed(items: seq<Json>)
    ensures WellKeyed(Arr(items))
  {
    forall n | 0 <= n < |items| ensures DotFree(EntryKey(Arr(items), n)) {
      NatToStringDigits(n);
    }
    forall n, m | 0 <= n < m < |items| ensures EntryKey(Arr(items), n) != EntryKey(Arr(items), m) {
      if NatToString(n) == NatToString(m) {
        NatToStringInjective(n, m);
      }
    }
  }

  /** With dot-free prefixes, `i + '.' + x` determines i and x. */
  lemma DottedInjective(i: string, x: string, j: string, y: string)
    requires DotFree(i) && DotFree(j) && i + "." + x == j + "." + y
    ensures i == j && x == y
  {
    var a := i + "." + x;
    assert a[|i|] == '.';
    assert (j + "." + y)[|j|] == '.';
    assert |i| == |j|;
    assert i == a[..|i|] == j;
    assert x == a[|i| + 1..] == y;
  }

  /** A key without '.' is never a dotted key `i.x`. */
  lemma DotFreeNotDotted(k: string, i: string, x: string)
    requires DotFree(k)
    ensures k != i + "." + x
  {
    var a := i + "." + x;
    assert a[|i|] == '.';
    if |k| > |i| {
      assert k[|i|] != '.';
    }
  }

  /** The inner loop leaves alone every key it does not write. */
  lemma {:induction false} PutNestedOther(acc: Dict, i: string, flat: Dict, key: string)
    requires key !in Dotted(i, KeySet(flat))
    ensures Lookup(PutNested(acc, i, flat), key) == Lookup(acc, key)
  {
    if flat != [] {
      var front := flat[..|flat| - 1];
      var last := flat[|flat| - 1];
      assert last.0 in KeySet(flat);
      assert KeySet(front) <= KeySet(flat) by {
        forall x | x in KeySet(front) ensures x in KeySet(flat) {
          var j :| 0 <= j < |front| && front[j].0 == x;
          assert flat[j] == front[j];
        }
      }
      PutNestedOther(acc, i, front, key);
      PutLookup(PutNested(acc, i, front), i + "." + last.0, last.1, key);
    }
  }

  /** The inner loop writes the value of each key x of a dictionary without repeated keys under `i.x`. */
  lemma {:induction false} PutNestedHit(acc: Dict, i: string, flat: Dict, x: string)
    requires DistinctKeys(flat) && x in KeySet(flat)
    ensures Lookup(PutNested(acc, i, flat), i + "." + x) == Lookup(flat, x)
  {
    var front := flat[..|flat| - 1];
    var last := flat[|flat| - 1];
    LookupLast(flat, x);
    DistinctFront(flat);
    PutLookup(PutNested(acc, i, front), i + "." + last.0, last.1, i + "." + x);
    if last.0 != x {
      assert i + "." + last.0 != i + "." + x by {
        assert (i + "." + x)[|i| + 1..] == x;
        assert (i + "." + last.0)[|i| + 1..] == last.0;
      }
      PutNestedHit(acc, i, front, x);
    }
  }

  /** Looking a key up, with the last pair split off. */
  lemma LookupLast(d: Dict, x: string)
    requires d != []
    ensures var front := d[..|d| - 1];
            var last := d[|d| - 1];
            && KeySet(d) == KeySet(front) + {last.0}
            && Lookup(d, x) == if x in KeySet(front) then Lookup(front, x) else if last.0 == x then Some(last.1) else None
  {
    var front := d[..|d| - 1];
    assert d == front + [d[|d| - 1]];
    LookupSnoc(front, d[|d| - 1], x);
    KeySetSnoc(front, d[|d| - 1]);
  }

  /** Looking a key up after one more pair. */
  lemma {:induction false} LookupSnoc(d: Dict, p: (string, Json), x: string)
    ensures Lookup(d + [p], x) == if x in KeySet(d) then Lookup(d, x) else if p.0 == x then Some(p.1) else None
  {
    if d != [] {
      assert (d + [p])[1..] == d[1..] + [p];
      KeySetCons(d[0], d[1..]);
      assert d == [d[0]] + d[1..];
      LookupSnoc(d[1..], p, x);
    } else {
      assert [] + [p] == [p];
      assert KeySet(d) == {};
    }
  }

  /** The dictionaries the outer loop passes through, one per number of visited properties. */
  function Prefixes(ob: Json): (ds: seq<Dict>)
    ensures |ds| == Width(ob) + 1
    ensures forall j :: 0 <= j < |ds| ==> ds[j] == FlattenPrefix(ob, j)
  {
    seq(Width(ob) + 1, j requires 0 <= j <= Width(ob) => FlattenPrefix(ob, j))
  }

  /** A key every step leaves alone keeps its value from step n to step m. */
  lemma ChainKeeps(ds: seq<Dict>, n: nat, m: nat, k: string)
    requires n <= m < |ds|
    requires forall j :: n <= j < m ==> Lookup(ds[j + 1], k) == Lookup(ds[j], k)
    ensures Lookup(ds[m], k) == Lookup(ds[n], k)
  {
    var j := n;
    while j < m
      invariant n <= j <= m
      invariant Lookup(ds[j], k) == Lookup(ds[n], k)
    {
      j := j + 1;
    }
  }

  /** One step of the outer loop leaves alone a dot-free key other than the property's own. */
  lemma StepKeeps(ob: Json, n: nat, k: string)
    requires n < Width(ob) && DotFree(k) && EntryKey(ob, n) != k
    ensures Lookup(FlattenPrefix(ob, n + 1), k) == Lookup(FlattenPrefix(ob, n), k)
  {
    var key := EntryKey(ob, n);
    var w := EntryValue(ob, n);
    var acc := FlattenPrefix(ob, n);
    FlattenStep(ob, n, key, w);
    if IsObject(w) {
      forall x | x in KeySet(Flatten(w)) ensures k != key + "." + x {
        DotFreeNotDotted(k, key, x);
      }
      PutNestedOther(acc, key, Flatten(w), k);
    } else {
      PutLookup(acc, key, w, k);
    }
  }

  /** Once the key k is written, later properties of a well-keyed object keep it, provided k has no '.'. */
  lemma LaterStepsKeep(ob: Json, n: nat, m: nat, k: string, v: Option<Json>)
    requires n <= m <= Width(ob) && DotFree(k)
    requires forall j :: n <= j < Width(ob) ==> EntryKey(ob, j) != k
    requires Lookup(FlattenPrefix(ob, n), k) == v
    ensures Lookup(FlattenPrefix(ob, m), k) == v
  {
    var ds := Prefixes(ob);
    forall j | n <= j < m ensures Lookup(ds[j + 1], k) == Lookup(ds[j], k) {
      StepKeeps(ob, j, k);
    }
    ChainKeeps(ds, n, m, k);
  }

  /** A property x holding a primitive or null keeps its own key and value in the result. */
  lemma PrimitiveCopied(ob: Json, n: nat)
    requires WellKeyed(ob) && n < Width(ob) && !IsObject(EntryValue(ob, n))
    ensures Lookup(Flatten(ob), EntryKey(ob, n)) == Some(EntryValue(ob, n))
  {
    var k := EntryKey(ob, n);
    FlattenStep(ob, n, k, EntryValue(ob, n));
    PutLookup(FlattenPrefix(ob, n), k, EntryValue(ob, n), k);
    LaterStepsKeep(ob, n + 1, Width(ob), k, Some(EntryValue(ob, n)));
  }

  /** A dotted key under i is not among the dotted keys under another dot-free key. */
  lemma NotDottedUnderOther(i: string, x: string, key: string, keys: set<string>)
    requires DotFree(i) && DotFree(key) && i != key
    ensures i + "." + x !in Dotted(key, keys)
  {
    if i + "." + x in Dotted(key, keys) {
      var y :| y in keys && i + "." + x == key + "." + y;
      DottedInjective(i, x, key, y);
    }
  }

  /** One step of the outer loop leaves alone the dotted keys under another dot-free key. */
  lemma StepKeepsDotted(ob: Json, n: nat, i: string, x: string)
    requires n < Width(ob) && DotFree(i) && DotFree(EntryKey(ob, n)) && EntryKey(ob, n) != i
    ensures Lookup(FlattenPrefix(ob, n + 1), i + "." + x) == Lookup(FlattenPrefix(ob, n), i + "." + x)
  {
    var key := EntryKey(ob, n);
    var w := EntryValue(ob, n);
    var acc := FlattenPrefix(ob, n);
    FlattenStep(ob, n, key, w);
    if IsObject(w) {
      NotDottedUnderOther(i, x, key, KeySet(Flatten(w)));
      PutNestedOther(acc, key, Flatten(w), i + "." + x);
    } else {
      DotFreeNotDotted(key, i, x);
      PutLookup(acc, key, w, i + "." + x);
    }
  }

  /** Later properties of a well-keyed object keep the dotted keys of an earlier one. */
  lemma LaterStepsKeepDotted(ob: Json, n: nat, m: nat, i: string, x: string, v: Option<Json>)
    requires n <= m <= Width(ob) && DotFree(i)
    requires forall j :: n <= j < Width(ob) ==> DotFree(EntryKey(ob, j)) && EntryKey(ob, j) != i
    requires Lookup(FlattenPrefix(ob, n), i + "." + x) == v
    ensures Lookup(FlattenPrefix(ob, m), i + "." + x) == v
  {
    var ds := Prefixes(ob);
    forall j | n <= j < m ensures Lookup(ds[j + 1], i + "." + x) == Lookup(ds[j], i + "." + x) {
      StepKeepsDotted(ob, j, i, x);
    }
    ChainKeeps(ds, n, m, i + "." + x);
  }

  /**
   * A property i holding an object whose flattening has key x gives key
   * "i.x" in the result, with the same value: nested objects come out as
   * dotted paths.
   */
  lemma NestedKeyDotted(ob: Json, n: nat, x: string)
    requires WellKeyed(ob) && n < Width(ob) && IsObject(EntryValue(ob, n))
    requires x in KeySet(Flatten(EntryValue(ob, n)))
    ensures Lookup(Flatten(ob), EntryKey(ob, n) + "." + x) == Lookup(Flatten(EntryValue(ob, n)), x)
  {
    var i := EntryKey(ob, n);
    var v := EntryValue(ob, n);
    var inner := Flatten(v);
    FlattenStep(ob, n, i, v);
    assert FlattenPrefix(ob, n + 1) == PutNested(FlattenPrefix(ob, n), i, inner);
    FlattenPrefixDistinct(v, Width(v));
    assert DistinctKeys(inner);
    PutNestedHit(FlattenPrefix(ob, n), i, inner, x);
    assert DotFree(i);
    assert forall j :: n + 1 <= j < Width(ob) ==> DotFree(EntryKey(ob, j)) && EntryKey(ob, j) != i;
    LaterStepsKeepDotted(ob, n + 1, Width(ob), i, x, Lookup(inner, x));
    assert Flatten(ob) == FlattenPrefix(ob, Width(ob));
  }

  // ---------------------------------------------------------------- csv text

  /** `replacer`: undefined (a missing key) and null become ''; every other value is kept. */
  function Replacer(v: Option<Json>): (r: Json)
    ensures v.None? || v == Some(Null) ==> r == Str("")
    ensures v.Some? && v.value != Null ==> r == v.value
  {
    if v.None? || v.value == Null then Str("") else v.value
  }

  function HexDigit(d: nat): (c: char)
    requires d < 16
    ensures ('0' <= c <= '9') || ('a' <= c <= 'f')
  {
    if d < 10 then DigitChar(d) else ('a' as int + d - 10) as char
  }

  /** How `JSON.stringify` writes one character inside a string. */
  function EscapeJsonChar(c: char): string
  {
    if c == '"' then "\\\""
    else if c == '\\' then "\\\\"
    else if c == '\U{8}' then "\\b"
    else if c == '\U{C}' then "\\f"
    else if c == '\n' then "\\n"
    else if c == '\r' then "\\r"
    else if c == '\t' then "\\t"
    else if (c as int) < 0x20 then "\\u00" + [HexDigit(c as int / 16), HexDigit(c as int % 16)]
    else [c]
  }

  function EscapeJson(s: string): string
  {
    if s == [] then [] else EscapeJsonChar(s[0]) + EscapeJson(s[1..])
  }

  /** `JSON.stringify` of a primitive or null. */
  function Stringify(v: Json): (r: string)
    requires !IsObject(v)
    ensures v == Null ==> r == "null"
    ensures v.Str? ==> |r| >= 2 && r[0] == '"' && r[|r| - 1] == '"'
  {
    match v
    case Null => "null"
    case Bool(b) => if b then "true" else "false"
    case Num(n) => IntToString(n)
    case Str(t) => "\"" + EscapeJson(t) + "\""
  }

  /** A value found in a dictionary of primitives is a primitive. */
  lemma {:induction false} LookupPrimitive(d: Dict, k: string)
    requires AllPrimitive(d) && Lookup(d, k).Some?
    ensures !IsObject(Lookup(d, k).value)
  {
    if d[0].0 != k {
      LookupPrimitive(d[1..], k);
    }
  }

  /** `JSON.stringify(row[fieldName], replacer)` */
  function Field(row: Dict, name: string): (r: string)
    requires AllPrimitive(row)
    ensures Lookup(row, name).Some? && Lookup(row, name).value != Null ==>
              !IsObject(Lookup(row, name).value) && r == Stringify(Lookup(row, name).value)
  {
    var v := Lookup(row, name);
    if v.Some? then LookupPrimitive(row, name); Stringify(Replacer(v)) else Stringify(Replacer(v))
  }

  /** A field the row does not have, or holds null, is written as an empty string literal. */
  lemma MissingFieldIsBlank(row: Dict, name: string)
    requires AllPrimitive(row) && (name !in KeySet(row) || Lookup(row, name) == Some(Null))
    ensures Field(row, name) == "\"\""
  {
  }

  /** Escaping never leaves a raw line break. */
  lemma {:induction false} EscapeJsonNoNewline(t: string)
    ensures forall i :: 0 <= i < |EscapeJson(t)| ==> EscapeJson(t)[i] != '\n'
  {
    if t != [] {
      EscapeJsonNoNewline(t[1..]);
      var head := EscapeJsonChar(t[0]);
      if (t[0] as int) < 0x20 {
        var hi := t[0] as int / 16;
        var lo := t[0] as int % 16;
        assert HexDigit(hi) != '\n' && HexDigit(lo) != '\n';
      }
      assert forall i :: 0 <= i < |head| ==> head[i] != '\n';
    }
  }

  /** An integer is written with a sign or digits only. */
  lemma IntTextShape(n: int)
    ensures var t := IntToString(n);
            && t != [] && t[0] != 'n' && t[0] != 'u'
            && forall i :: 0 <= i < |t| ==> t[i] != '\n'
  {
    if n < 0 {
      NatToStringIsNumeral(-n);
      assert IntToString(n) == "-" + NatToString(-n);
    } else {
      NatToStringIsNumeral(n);
      assert IntToString(n) == NatToString(n);
    }
  }

  /** `JSON.stringify` of a value other than null has no line break and does not start like "null" or "undefined". */
  lemma StringifyShape(r: Json)
    requires !IsObject(r) && r != Null
    ensures var t := Stringify(r);
            && t != [] && t[0] != 'n' && t[0] != 'u'
            && forall i :: 0 <= i < |t| ==> t[i] != '\n'
  {
    match r
    case Bool(b) =>
    case Num(n) => IntTextShape(n);
    case Str(t) =>
      EscapeJsonNoNewline(t);
      var e := EscapeJson(t);
      assert Stringify(r) == "\"" + e + "\"";
  }

  /** A field never contains a line break and is never "null" or "undefined". */
  lemma FieldShape(row: Dict, name: string)
    requires AllPrimitive(row)
    ensures forall i :: 0 <= i < |Field(row, name)| ==> Field(row, name)[i] != '\n'
    ensures Field(row, name) != "null" && Field(row, name) != "undefined"
  {
    var v := Lookup(row, name);
    if v.Some? {
      LookupPrimitive(row, name);
    }
    var r := Replacer(v);
    assert Field(row, name) == Stringify(r);
    StringifyShape(r);
    var t := Stringify(r);
    assert "null"[0] == 'n' && "undefined"[0] == 'u';
  }

  /** `dataset.map(flattenObject)` */
  function FlatRows(dataset: seq<Json>): (rows: seq<Dict>)
    ensures |rows| == |dataset|
    ensures forall i :: 0 <= i < |rows| ==> AllPrimitive(rows[i])
  {
    if dataset == [] then []
    else
      FlattenIsPrimitive(dataset[0]);
      [Flatten(dataset[0])] + FlatRows(dataset[1..])
  }

  /** The i-th row is the flattening of the i-th record. */
  lemma {:induction false} FlatRowsFlatten(dataset: seq<Json>)
    ensures forall i :: 0 <= i < |dataset| ==> FlatRows(dataset)[i] == Flatten(dataset[i])
  {
    if dataset != [] {
      FlatRowsFlatten(dataset[1..]);
      assert FlatRows(dataset) == [Flatten(dataset[0])] + FlatRows(dataset[1..]);
    }
  }

  /** The index the `reduce` picking the row with the most keys stops at, over the first n rows. */
  function HeaderIndex(rows: seq<Dict>, n: nat): (r: nat)
    requires 1 <= n <= |rows|
    ensures r < n
  {
    if n == 1 then 0
    else
      var a := HeaderIndex(rows, n - 1);
      if |rows[a]| > |rows[n - 1]| then a else n - 1
  }

  /** The header row has the most keys, and no later row has as many: on a tie the later row wins. */
  lemma {:induction false} HeaderIsWidest(rows: seq<Dict>, n: nat)
    requires 1 <= n <= |rows|
    ensures forall j :: 0 <= j < n ==> |rows[j]| <= |rows[HeaderIndex(rows, n)]|
    ensures forall j :: HeaderIndex(rows, n) < j < n ==> |rows[j]| < |rows[HeaderIndex(rows, n)]|
  {
    if n > 1 {
      HeaderIsWidest(rows, n - 1);
    }
  }

  /** `header.map(fieldName => JSON.stringify(row[fieldName], replacer))` */
  function RowFields(row: Dict, header: seq<string>): (r: seq<string>)
    requires AllPrimitive(row)
    ensures |r| == |header|
    ensures forall j :: 0 <= j < |header| ==> r[j] == Field(row, header[j])
  {
    if header == [] then [] else [Field(row, header[0])] + RowFields(row, header[1..])
  }

  /** The header, `Object.keys` of the widest row. */
  function Header(rows: seq<Dict>): seq<string>
    requires |rows| > 0
  {
    Keys(rows[HeaderIndex(rows, |rows|)])
  }

  /** The lines built from flattened rows: the header, then one line per row. */
  function RowLines(rows: seq<Dict>): (lines: seq<string>)
    requires |rows| > 0 && forall i :: 0 <= i < |rows| ==> AllPrimitive(rows[i])
    ensures |lines| == |rows| + 1
    ensures lines[0] == Join(Header(rows), ", ")
    ensures forall k :: 0 <= k < |rows| ==> lines[k + 1] == Join(RowFields(rows[k], Header(rows)), ", ")
  {
    var header := Header(rows);
    [Join(header, ", ")] + BodyLines(rows, header)
  }

  /** One line per row, its fields under the header joined by ', '. */
  function BodyLines(rows: seq<Dict>, header: seq<string>): (lines: seq<string>)
    requires forall i :: 0 <= i < |rows| ==> AllPrimitive(rows[i])
    ensures |lines| == |rows|
    ensures forall k :: 0 <= k < |rows| ==> lines[k] == Join(RowFields(rows[k], header), ", ")
  {
    if rows == [] then [] else [Join(RowFields(rows[0], header), ", ")] + BodyLines(rows[1..], header)
  }

  /** The lines of the file `csvDownload` builds: the header, then one line per record. */
  function CsvLines(dataset: seq<Json>): (lines: seq<string>)
    requires |dataset| > 0
    ensures |lines| == |dataset| + 1
    ensures lines[0] == Join(Header(FlatRows(dataset)), ", ")
    ensures forall k :: 0 <= k < |dataset| ==>
              lines[k + 1] == Join(RowFields(FlatRows(dataset)[k], Header(FlatRows(dataset))), ", ")
  {
    FlatRowsFlatten(dataset);
    RowLines(FlatRows(dataset))
  }

  /** The text of the file `csvDownload` offers; an empty dataset gives none. */
  function CsvDownload(dataset: seq<Json>): (r: Option<string>)
    ensures r.None? <==> |dataset| == 0
  {
    if |dataset| == 0 then None else Some(Join(CsvLines(dataset), "\n"))
  }

  /** Every field of the header row is present in it: the header row never has a blank for a missing key. */
  lemma HeaderRowComplete(dataset: seq<Json>, j: nat)
    requires |dataset| > 0
    ensures var rows := FlatRows(dataset);
            j < |Header(rows)| ==> Header(rows)[j] in KeySet(rows[HeaderIndex(rows, |rows|)])
  {
  }

  /** The number of line breaks in s. */
  function Newlines(s: string): nat
  {
    if s == [] then 0 else (if s[0] == '\n' then 1 else 0) + Newlines(s[1..])
  }

  lemma {:induction false} NewlinesAppend(a: string, b: string)
    ensures Newlines(a + b) == Newlines(a) + Newlines(b)
  {
    if a != [] {
      assert (a + b)[1..] == a[1..] + b;
      NewlinesAppend(a[1..], b);
    } else {
      assert a + b == b;
    }
  }

  lemma {:induction false} NoNewlines(s: string)
    requires forall i :: 0 <= i < |s| ==> s[i] != '\n'
    ensures Newlines(s) == 0
  {
    if s != [] {
      NoNewlines(s[1..]);
    }
  }

  /** Joining lines without breaks of their own gives one break fewer than lines. */
  lemma {:induction false} JoinLines(lines: seq<string>)
    requires |lines| > 0
    requires forall k :: 0 <= k < |lines| ==> Newlines(lines[k]) == 0
    ensures Newlines(Join(lines, "\n")) == |lines| - 1
  {
    if |lines| > 1 {
      var front := lines[..|lines| - 1];
      JoinLines(front);
      NewlinesAppend(Join(front, "\n") + "\n", lines[|lines| - 1]);
      NewlinesAppend(Join(front, "\n"), "\n");
    }
  }

  /** A row line has no line break of its own. */
  lemma {:induction false} RowLineNoNewline(row: Dict, header: seq<string>)
    requires AllPrimitive(row)
    ensures Newlines(Join(RowFields(row, header), ", ")) == 0
    decreases |header|
  {
    var fields := RowFields(row, header);
    if |fields| > 0 {
      var front := fields[..|fields| - 1];
      assert front == RowFields(row, header[..|header| - 1]);
      RowLineNoNewline(row, header[..|header| - 1]);
      FieldShape(row, header[|header| - 1]);
      NoNewlines(fields[|fields| - 1]);
      NewlinesAppend(Join(front, ", ") + ", ", fields[|fields| - 1]);
      NewlinesAppend(Join(front, ", "), ", ");
    }
  }

  /**
   * When no key holds a line break, the file has exactly one line per
   * row after the header line.
   */
  lemma CsvLineCount(dataset: seq<Json>)
    requires |dataset| > 0
    requires forall k :: k in Header(FlatRows(dataset)) ==> Newlines(k) == 0
    ensures Newlines(CsvDownload(dataset).value) == |dataset|
  {
    var rows := FlatRows(dataset);
    var lines := CsvLines(dataset);
    assert lines == RowLines(rows);
    assert CsvDownload(dataset) == Some(Join(lines, "\n"));
    RowLinesCount(rows);
  }

  /** Lines built from rows whose keys hold no line break are joined into one break fewer than lines. */
  lemma RowLinesCount(rows: seq<Dict>)
    requires |rows| > 0 && forall i :: 0 <= i < |rows| ==> AllPrimitive(rows[i])
    requires forall k :: k in Header(rows) ==> Newlines(k) == 0
    ensures Newlines(Join(RowLines(rows), "\n")) == |rows|
  {
    var lines := RowLines(rows);
    forall k | 0 <= k < |lines| ensures Newlines(lines[k]) == 0 {
      RowLinesLine(rows, k);
    }
    JoinLines(lines);
  }

  /** No line of the file holds a line break of its own. */
  lemma RowLinesLine(rows: seq<Dict>, k: nat)
    requires |rows| > 0 && forall i :: 0 <= i < |rows| ==> AllPrimitive(rows[i])
    requires forall key :: key in Header(rows) ==> Newlines(key) == 0
    requires k <= |rows|
    ensures Newlines(RowLines(rows)[k]) == 0
  {
    if k == 0 {
      HeaderLineNoNewline(Header(rows));
    } else {
      RowLineNoNewline(rows[k - 1], Header(rows));
    }
  }

  lemma HeaderLineNoNewline(header: seq<string>)
    requires forall key :: key in header ==> Newlines(key) == 0
    ensures Newlines(Join(header, ", ")) == 0
  {
    assert Newlines(", ") == 0;
    JoinNoNewlines(header, ", ");
  }

  /** Joining parts without line breaks with a separator without one gives none. */
  lemma {:induction false} JoinNoNewlines(parts: seq<string>, sep: string)
    requires forall k :: k in parts ==> Newlines(k) == 0
    requires Newlines(sep) == 0
    ensures Newlines(Join(parts, sep)) == 0
  {
    if |parts| > 1 {
      var front := parts[..|parts| - 1];
      assert forall k :: k in front ==> k in parts;
      JoinNoNewlines(front, sep);
      assert parts[|parts| - 1] in parts;
      NewlinesAppend(Join(front, sep) + sep, parts[|parts| - 1]);
      NewlinesAppend(Join(front, sep), sep);
    } else if |parts| == 1 {
      assert parts[0] in parts;
    }
  }

  // ---------------------------------------------------------------- downloadList

  /** `selectedHeaders` and `dontInclude` of `downloadList`: both are empty. */
  const SelectedHeaders: seq<string> := []
  const DontInclude: seq<string> := []

  /** `item.split(".")[item.split(".").length - 1]`: the text after the last '.'. */
  function LastSegment(item: string): string
  {
    if item == [] then []
    else if item[|item| - 1] == '.' then []
    else LastSegment(item[..|item| - 1]) + [item[|item| - 1]]
  }

  /** The two `filter` calls on the header. */
  function FilterHeader(header: seq<string>, selected: seq<string>, dontInclude: seq<string>): (r: seq<string>)
    ensures forall k :: k in r ==> k in header && k in selected && LastSegment(k) !in dontInclude
    ensures forall k :: k in header && k in selected && LastSegment(k) !in dontInclude ==> k in r
  {
    if header == [] then []
    else
      var rest := FilterHeader(header[1..], selected, dontInclude);
      var h := header[0];
      assert forall k :: k in header ==> k == h || k in header[1..];
      if h in selected && LastSegment(h) !in dontInclude then [h] + rest else rest
  }

  /** With no selected header, the filter keeps nothing. */
  lemma {:induction false} NothingSelected(header: seq<string>, dontInclude: seq<string>)
    ensures FilterHeader(header, [], dontInclude) == []
  {
    if header != [] {
      NothingSelected(header[1..], dontInclude);
    }
  }

  /** The text of the file `downloadList` offers; fields are joined by ','. */
  function DownloadList(dataset: seq<Json>): (r: Option<string>)
    ensures r.None? <==> dataset == []
  {
    if |dataset| == 0 then None
    else
      var rows := FlatRows(dataset);
      var header := FilterHeader(Header(rows), SelectedHeaders, DontInclude);
      var lines := [Join(header, ",")] + seq(|rows|, k requires 0 <= k < |rows| => Join(RowFields(rows[k], header), ","));
      Some(Join(lines, "\n"))
  }

  /** Joining n + 1 empty lines gives n line breaks. */
  lemma {:induction false} JoinEmptyLines(n: nat)
    ensures Join(seq(n + 1, _ => ""), "\n") == seq(n, _ => '\n')
  {
    if n > 0 {
      var lines := seq(n + 1, _ => "");
      assert lines[..n] == seq(n, _ => "");
      JoinEmptyLines(n - 1);
      assert seq(n - 1, _ => '\n') + "\n" + "" == seq(n, _ => '\n');
    }
  }

  /** No header is selected, so every line is empty and the file is one line break per row. */
  lemma DownloadListIsBlank(dataset: seq<Json>)
    ensures DownloadList(dataset) == if |dataset| == 0 then None else Some(seq(|dataset|, _ => '\n'))
  {
    if |dataset| > 0 {
      var rows := FlatRows(dataset);
      var header := FilterHeader(Header(rows), SelectedHeaders, DontInclude);
      NothingSelected(Header(rows), DontInclude);
      var lines := [Join(header, ",")] + seq(|rows|, k requires 0 <= k < |rows| => Join(RowFields(rows[k], header), ","));
      assert lines == seq(|dataset| + 1, _ => "");
      JoinEmptyLines(|dataset|);
    }
  }
}
