/** JavaScript plain objects used as dictionaries. `Object.keys` and
    `Object.entries` list string keys in insertion order, and assigning to an
    existing key keeps its position; `Dict` records that order next to the map.
    `Index` is the `{ [key: string]: string[] }` shape shared by the element,
    cell and asset maps. */
module Dicts {
  import opened Text

  datatype Dict<V> = Dict(keys: seq<string>, entries: map<string, V>)

  /** The key order lists every key of the map exactly once. */
  ghost predicate Valid<V>(d: Dict<V>) {
    NoDuplicates(d.keys) && (forall k :: k in d.entries <==> k in d.keys)
  }

  function Empty<V>(): (r: Dict<V>)
    ensures Valid(r) && r.keys == []
  {
    Dict([], map[])
  }

  /** `d[k] = v`. */
  function Put<V>(d: Dict<V>, k: string, v: V): (r: Dict<V>)
    ensures Valid(d) ==> Valid(r)
    ensures forall j :: j in r.entries <==> j in d.entries || j == k
    ensures r.entries[k] == v
    ensures forall j :: j in d.entries && j != k ==> r.entries[j] == d.entries[j]
    ensures k in d.entries ==> r.keys == d.keys
    ensures k !in d.entries ==> r.keys == d.keys + [k]
  {
    Dict(if k in d.entries then d.keys else d.keys + [k], d.entries[k := v])
  }

  /** `d[k]`, with `undefined` as `None`. */
  function Get<V>(d: Dict<V>, k: string): Option<V> {
    if k in d.entries then Some(d.entries[k]) else None
  }

  /** `Object.values(d)` (and `Array.from(m.values())` for a `Map`). */
  function Values<V>(d: Dict<V>): (r: seq<V>)
    requires Valid(d)
    ensures |r| == |d.keys|
    ensures forall i :: 0 <= i < |d.keys| ==> r[i] == d.entries[d.keys[i]]
  {
    seq(|d.keys|, i requires 0 <= i < |d.keys| => d.entries[d.keys[i]])
  }

  /** `Object.entries(d)`: the key/value pairs in key order. */
  function Items<V>(d: Dict<V>): (r: seq<(string, V)>)
    requires Valid(d)
    ensures |r| == |d.keys|
    ensures forall i :: 0 <= i < |r| ==> r[i] == (d.keys[i], d.entries[d.keys[i]])
  {
    seq(|d.keys|, i requires 0 <= i < |d.keys| => (d.keys[i], d.entries[d.keys[i]]))
  }

  // ---------------------------------------------------------------------
  // key -> list of file paths

  type Index = Dict<seq<string>>

  /** Every key is listed once and no list is empty. */
  ghost predicate WellFormed(ix: Index) {
    Valid(ix) && forall k :: k in ix.entries ==> ix.entries[k] != []
  }

  /** `map[k] || []`: an absent key reads as the empty list. */
  function Lookup(ix: Index, k: string): seq<string> {
    if k in ix.entries then ix.entries[k] else []
  }

  /** `Object.keys(map)`. */
  function Names(ix: Index): seq<string> {
    ix.keys
  }

  /** `if (!map[k]) { map[k] = []; } map[k].push(p);` */
  function Append(ix: Index, k: string, p: string): (r: Index)
    ensures WellFormed(ix) ==> WellFormed(r)
    ensures forall j :: Lookup(r, j) == if j == k then Lookup(ix, k) + [p] else Lookup(ix, j)
    ensures Names(r) == if k in ix.entries then Names(ix) else Names(ix) + [k]
  {
    Put(ix, k, Lookup(ix, k) + [p])
  }

  /** As `Append`, but `p` is pushed only when the list does not already include it. */
  function AppendNew(ix: Index, k: string, p: string): (r: Index)
    ensures WellFormed(ix) ==> WellFormed(r)
    ensures forall j :: j != k ==> Lookup(r, j) == Lookup(ix, j)
    ensures p in Lookup(ix, k) ==> r == ix
    ensures p !in Lookup(ix, k) ==> Lookup(r, k) == Lookup(ix, k) + [p]
    ensures NoDuplicates(Lookup(ix, k)) ==> NoDuplicates(Lookup(r, k))
  {
    if p in Lookup(ix, k) then ix else Append(ix, k, p)
  }

  /** Pushes every `(key, path)` pair in order. */
  function AppendAll(ix: Index, pairs: seq<(string, string)>): Index
    decreases |pairs|
  {
    if pairs == [] then ix else AppendAll(Append(ix, pairs[0].0, pairs[0].1), pairs[1..])
  }

  /** Pushes every `(key, path)` pair whose path the key does not hold yet. */
  function AppendNewAll(ix: Index, pairs: seq<(string, string)>): Index
    decreases |pairs|
  {
    if pairs == [] then ix else AppendNewAll(AppendNew(ix, pairs[0].0, pairs[0].1), pairs[1..])
  }

  /** The paths paired with `k`, in order. */
  function PathsFor(pairs: seq<(string, string)>, k: string): (r: seq<string>)
    ensures |r| <= |pairs|
    ensures forall p :: p in r <==> (k, p) in pairs
    decreases |pairs|
  {
    if pairs == [] then []
    else
      var rest := PathsFor(pairs[1..], k);
      assert forall q :: q in pairs[1..] ==> q in pairs;
      assert forall q :: q in pairs ==> q == pairs[0] || q in pairs[1..];
      if pairs[0].0 == k then [pairs[0].1] + rest else rest
  }

  lemma {:induction false} PathsForConcat(a: seq<(string, string)>, b: seq<(string, string)>, k: string)
    ensures PathsFor(a + b, k) == PathsFor(a, k) + PathsFor(b, k)
    decreases |a|
  {
    if a != [] {
      assert (a + b)[0] == a[0] && (a + b)[1..] == a[1..] + b;
      PathsForConcat(a[1..], b, k);
    } else {
      assert a + b == b;
    }
  }

  lemma {:induction false} AppendAllConcat(ix: Index, a: seq<(string, string)>, b: seq<(string, string)>)
    ensures AppendAll(ix, a + b) == AppendAll(AppendAll(ix, a), b)
    decreases |a|
  {
    if a != [] {
      assert (a + b)[0] == a[0] && (a + b)[1..] == a[1..] + b;
      AppendAllConcat(Append(ix, a[0].0, a[0].1), a[1..], b);
    } else {
      assert a + b == b;
    }
  }

  lemma {:induction false} AppendNewAllConcat(ix: Index, a: seq<(string, string)>, b: seq<(string, string)>)
    ensures AppendNewAll(ix, a + b) == AppendNewAll(AppendNewAll(ix, a), b)
    decreases |a|
  {
    if a != [] {
      assert (a + b)[0] == a[0] && (a + b)[1..] == a[1..] + b;
      AppendNewAllConcat(AppendNew(ix, a[0].0, a[0].1), a[1..], b);
    } else {
      assert a + b == b;
    }
  }

  /** After pushing all pairs, each key holds its old list followed by exactly
      the paths paired with it, in order. */
  lemma {:induction false} AppendAllLookup(ix: Index, pairs: seq<(string, string)>, k: string)
    ensures Lookup(AppendAll(ix, pairs), k) == Lookup(ix, k) + PathsFor(pairs, k)
    decreases |pairs|
  {
    if pairs != [] {
      AppendAllLookup(Append(ix, pairs[0].0, pairs[0].1), pairs[1..], k);
    }
  }

  /** Pushing keeps the index well formed. */
  lemma {:induction false} AppendAllWellFormed(ix: Index, pairs: seq<(string, string)>)
    requires WellFormed(ix)
    ensures WellFormed(AppendAll(ix, pairs))
    decreases |pairs|
  {
    if pairs != [] {
      AppendAllWellFormed(Append(ix, pairs[0].0, pairs[0].1), pairs[1..]);
    }
  }

  /** A key is listed after pushing iff it was listed before or some pair carries it. */
  lemma {:induction false} AppendAllNames(ix: Index, pairs: seq<(string, string)>, k: string)
    requires Valid(ix)
    ensures k in Names(AppendAll(ix, pairs)) <==> k in Names(ix) || exists p :: (k, p) in pairs
    decreases |pairs|
  {
    if pairs != [] {
      var ix' := Append(ix, pairs[0].0, pairs[0].1);
      AppendAllNames(ix', pairs[1..], k);
      assert forall q :: q in pairs <==> q == pairs[0] || q in pairs[1..];
      if k == pairs[0].0 {
        assert (k, pairs[0].1) in pairs;
      }
    }
  }

  /** The de-duplicating push: every list stays free of duplicates, and a key
      holds a path iff it held it before or some pair carries it. */
  lemma {:induction false} AppendNewAllLookup(ix: Index, pairs: seq<(string, string)>, k: string)
    requires NoDuplicates(Lookup(ix, k))
    ensures NoDuplicates(Lookup(AppendNewAll(ix, pairs), k))
    ensures forall p :: p in Lookup(AppendNewAll(ix, pairs), k) <==> p in Lookup(ix, k) || (k, p) in pairs
    decreases |pairs|
  {
    if pairs != [] {
      var ix' := AppendNew(ix, pairs[0].0, pairs[0].1);
      assert forall p :: p in Lookup(ix', k) <==> p in Lookup(ix, k) || (k, p) == pairs[0];
      AppendNewAllLookup(ix', pairs[1..], k);
      assert forall q :: q in pairs <==> q == pairs[0] || q in pairs[1..];
    }
  }

  lemma {:induction false} AppendNewAllWellFormed(ix: Index, pairs: seq<(string, string)>)
    requires WellFormed(ix)
    ensures WellFormed(AppendNewAll(ix, pairs))
    decreases |pairs|
  {
    if pairs != [] {
      AppendNewAllWellFormed(AppendNew(ix, pairs[0].0, pairs[0].1), pairs[1..]);
    }
  }
}
