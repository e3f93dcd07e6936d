/** The live object graph: scalars are values, everything else lives on a heap. */
module Values {
  import opened Results

  /** The runtime types the serializer emits unchanged: float, int and str. */
  datatype Literal = Int(i: int) | Float(x: real) | Str(s: string)

  /** A class named by its defining module and its own name. */
  datatype QualName = QualName(moduleName: string, className: string)

  /** Abstract object identity: an index into the heap. */
  type ObjId = nat

  /** A Python value: a literal, a heap object, or a class object. */
  datatype Value =
    | Lit(lit: Literal)
    | Obj(id: ObjId)
    | Class(cls: QualName)

  /** An insertion-ordered mapping with literal keys. */
  type Entries = seq<(Literal, Value)>

  datatype HeapObj =
    | ListObj(items: seq<Value>)
    | TupleObj(items: seq<Value>)
    | DictObj(entries: Entries)
    | InstanceObj(cls: QualName, fields: Entries)
    /** An object without a field mapping, such as None or a bool. */
    | Opaque(cls: QualName)

  type Heap = seq<HeapObj>

  predicate ValidIn(h: Heap, v: Value) {
    v.Obj? ==> v.id < |h|
  }

  /** The values an object refers to, in order. */
  function Children(o: HeapObj): seq<Value> {
    match o
    case ListObj(items) => items
    case TupleObj(items) => items
    case DictObj(entries) => ValuesOf(entries)
    case InstanceObj(_, fields) => ValuesOf(fields)
    case Opaque(_) => []
  }

  /** The second components of a sequence of pairs, in order: the values of a dict's entries,
      or the value nodes of an item dict. */
  function ValuesOf<K, V>(e: seq<(K, V)>): (r: seq<V>)
    ensures |r| == |e|
    ensures forall i :: 0 <= i < |e| ==> r[i] == e[i].1
  {
    seq(|e|, i requires 0 <= i < |e| => e[i].1)
  }

  /** No object refers outside the heap. */
  predicate Closed(h: Heap) {
    forall o, i :: 0 <= o < |h| && 0 <= i < |Children(h[o])| ==> ValidIn(h, Children(h[o])[i])
  }

  /** Every value an object holds is a valid reference into `h`. */
  predicate HoldsValid(h: Heap, o: HeapObj) {
    match o
    case ListObj(items) => forall i :: 0 <= i < |items| ==> ValidIn(h, items[i])
    case TupleObj(items) => forall i :: 0 <= i < |items| ==> ValidIn(h, items[i])
    case DictObj(entries) => forall i :: 0 <= i < |entries| ==> ValidIn(h, entries[i].1)
    case InstanceObj(_, fields) => forall i :: 0 <= i < |fields| ==> ValidIn(h, fields[i].1)
    case Opaque(_) => true
  }

  lemma ClosedHolds(h: Heap, o: ObjId)
    requires Closed(h) && o < |h|
    ensures HoldsValid(h, h[o])
  {
    var kids := Children(h[o]);
    assert forall i :: 0 <= i < |kids| ==> ValidIn(h, kids[i]);
  }

  function KeysOf<V>(d: seq<(Literal, V)>): (r: seq<Literal>)
    ensures |r| == |d|
    ensures forall i :: 0 <= i < |d| ==> r[i] == d[i].0
  {
    seq(|d|, i requires 0 <= i < |d| => d[i].0)
  }

  predicate DistinctKeys<V>(d: seq<(Literal, V)>) {
    forall i, j :: 0 <= i < j < |d| ==> d[i].0 != d[j].0
  }

  /** Every dict and every instance field mapping has distinct keys, as Python dicts do. */
  predicate WellFormed(h: Heap) {
    && Closed(h)
    && forall o :: 0 <= o < |h| ==> (h[o].DictObj? ==> DistinctKeys(h[o].entries)) && (h[o].InstanceObj? ==> DistinctKeys(h[o].fields))
  }

  /** Objects keep their kind: a list stays a list, an instance keeps its class. */
  predicate SameKind(a: HeapObj, b: HeapObj) {
    match a
    case ListObj(_) => b.ListObj?
    case TupleObj(_) => b.TupleObj?
    case DictObj(_) => b.DictObj?
    case InstanceObj(c, _) => b.InstanceObj? && b.cls == c
    case Opaque(c) => b == a
  }

  /** The heap `h'` extends `h`, and every old object kept its kind. */
  predicate HeapGrows(h: Heap, h': Heap) {
    |h| <= |h'| && forall a :: 0 <= a < |h| ==> SameKind(h[a], h'[a])
  }

  lemma GrowsTrans(h1: Heap, h2: Heap, h3: Heap)
    ensures HeapGrows(h1, h2) && HeapGrows(h2, h3) ==> HeapGrows(h1, h3)
  {
  }

  /** Replacing an object by one of the same kind keeps the heap growing. */
  lemma GrowsUpdate(h: Heap, h': Heap, a: ObjId, o: HeapObj)
    requires HeapGrows(h, h') && a < |h'| && SameKind(h'[a], o)
    ensures HeapGrows(h, h'[a := o])
  {
  }

  /** What `k` maps to in an ordered mapping. */
  function Get<V>(d: seq<(Literal, V)>, k: Literal): Option<V> {
    if |d| == 0 then None
    else if d[0].0 == k then Some(d[0].1)
    else Get(d[1..], k)
  }

  /** `d[k] = v` on an insertion-ordered dict: `k` now maps to `v` and every other key
      keeps its value. */
  function Assign<V>(d: seq<(Literal, V)>, k: Literal, v: V): (r: seq<(Literal, V)>)
    ensures Get(r, k) == Some(v)
    ensures forall k' :: k' != k ==> Get(r, k') == Get(d, k')
  {
    if |d| == 0 then [(k, v)]
    else if d[0].0 == k then [(k, v)] + d[1..]
    else [d[0]] + Assign(d[1..], k, v)
  }

  /** A key already present keeps its place; a new key goes last. */
  lemma {:induction false} AssignKeys<V>(d: seq<(Literal, V)>, k: Literal, v: V)
    ensures KeysOf(Assign(d, k, v)) == if k in KeysOf(d) then KeysOf(d) else KeysOf(d) + [k]
    decreases |d|
  {
    if |d| > 0 {
      KeysCons(d);
      if d[0].0 == k {
        KeysCons(Assign(d, k, v));
      } else {
        AssignKeys(d[1..], k, v);
        KeysCons(Assign(d, k, v));
      }
    }
  }

  lemma KeysCons<V>(d: seq<(Literal, V)>)
    requires |d| > 0
    ensures KeysOf(d) == [d[0].0] + KeysOf(d[1..])
  {
  }

  /** Assigns each pair in turn, as the source's pairing loops do. */
  function AssignAll<V>(d: seq<(Literal, V)>, pairs: seq<(Literal, V)>): seq<(Literal, V)>
    decreases |pairs|
  {
    if |pairs| == 0 then d
    else AssignAll(Assign(d, pairs[0].0, pairs[0].1), pairs[1..])
  }

  /** Assigning pairs with distinct fresh keys appends them in order. */
  lemma {:induction false} AssignAllFresh<V>(d: seq<(Literal, V)>, pairs: seq<(Literal, V)>)
    requires DistinctKeys(d + pairs)
    ensures AssignAll(d, pairs) == d + pairs
    decreases |pairs|
  {
    if |pairs| > 0 {
      var k := pairs[0].0;
      FreshHead(d, pairs);
      var d1 := Assign(d, k, pairs[0].1);
      assert d1 == d + [pairs[0]] by {
        AssignNewKey(d, k, pairs[0].1);
      }
      assert d1 + pairs[1..] == d + pairs;
      AssignAllFresh(d1, pairs[1..]);
    }
  }

  lemma {:induction false} AssignNewKey<V>(d: seq<(Literal, V)>, k: Literal, v: V)
    requires k !in KeysOf(d)
    ensures Assign(d, k, v) == d + [(k, v)]
    decreases |d|
  {
    if |d| > 0 {
      assert d[0].0 == KeysOf(d)[0];
      assert k !in KeysOf(d[1..]) by {
        forall i | 0 <= i < |d| - 1
          ensures KeysOf(d[1..])[i] != k
        {
          assert KeysOf(d[1..])[i] == KeysOf(d)[i + 1];
        }
      }
      AssignNewKey(d[1..], k, v);
      assert d == [d[0]] + d[1..];
    }
  }

  /** Pairs an accumulator two at a time as key then value, assigning each pair in
      turn into a fresh mapping; `key` gives the dict key an item stands for, or None
      when the item cannot key a dict. */
  function PairUp<V>(acc: seq<V>, key: V -> Option<Literal>): (r: Result<seq<(Literal, V)>>)
    ensures |acc| % 2 != 0 ==> r == Err(MalformedPairs)
    ensures r.Ok? <==> |acc| % 2 == 0 && forall i :: 0 <= i < |acc| && i % 2 == 0 ==> key(acc[i]).Some?
  {
    if |acc| % 2 != 0 then Err(MalformedPairs) else PairInto([], acc, key)
  }

  function PairInto<V>(d: seq<(Literal, V)>, acc: seq<V>, key: V -> Option<Literal>): (r: Result<seq<(Literal, V)>>)
    requires |acc| % 2 == 0
    ensures r.Ok? <==> forall i :: 0 <= i < |acc| && i % 2 == 0 ==> key(acc[i]).Some?
    decreases |acc|
  {
    if |acc| == 0 then Ok(d)
    else match key(acc[0])
      case None => Err(UnhashableKey)
      case Some(k) =>
        var r := PairInto(Assign(d, k, acc[1]), acc[2..], key);
        assert forall i :: 2 <= i < |acc| ==> acc[i] == acc[2..][i - 2];
        r
  }

  /** The flat accumulator a key/value loop leaves: each key item, then its value. */
  function Interleave<V>(pairs: seq<(Literal, V)>, item: Literal -> V): (r: seq<V>)
    ensures |r| == 2 * |pairs|
    ensures forall i :: 0 <= i < |pairs| ==> r[2 * i] == item(pairs[i].0) && r[2 * i + 1] == pairs[i].1
  {
    if |pairs| == 0 then []
    else [item(pairs[0].0), pairs[0].1] + Interleave(pairs[1..], item)
  }

  /** Pairing an interleaved accumulator assigns its pairs in order. */
  lemma {:induction false} PairUpInterleave<V>(pairs: seq<(Literal, V)>, item: Literal -> V, key: V -> Option<Literal>)
    requires forall k :: key(item(k)) == Some(k)
    ensures PairUp(Interleave(pairs, item), key) == Ok(AssignAll([], pairs))
  {
    PairIntoInterleave([], pairs, item, key);
  }

  lemma {:induction false} PairIntoInterleave<V>(d: seq<(Literal, V)>, pairs: seq<(Literal, V)>, item: Literal -> V, key: V -> Option<Literal>)
    requires forall k :: key(item(k)) == Some(k)
    ensures PairInto(d, Interleave(pairs, item), key) == Ok(AssignAll(d, pairs))
    decreases |pairs|
  {
    if |pairs| > 0 {
      var acc := Interleave(pairs, item);
      assert acc == [item(pairs[0].0), pairs[0].1] + Interleave(pairs[1..], item);
      assert acc[2..] == Interleave(pairs[1..], item);
      PairIntoInterleave(Assign(d, pairs[0].0, pairs[0].1), pairs[1..], item, key);
    }
  }

  /** Assigning keeps or replaces entries; it brings in nothing but the assigned pair. */
  lemma {:induction false} AssignFrom<V>(d: seq<(Literal, V)>, k: Literal, v: V)
    ensures forall e :: e in Assign(d, k, v) ==> e in d || e == (k, v)
    decreases |d|
  {
    if |d| > 0 && d[0].0 != k {
      AssignFrom(d[1..], k, v);
      assert Assign(d, k, v) == [d[0]] + Assign(d[1..], k, v);
      assert forall e :: e in d[1..] ==> e in d;
    }
  }

  lemma {:induction false} AssignAllFrom<V>(d: seq<(Literal, V)>, pairs: seq<(Literal, V)>)
    ensures forall e :: e in AssignAll(d, pairs) ==> e in d || e in pairs
    decreases |pairs|
  {
    if |pairs| > 0 {
      AssignFrom(d, pairs[0].0, pairs[0].1);
      AssignAllFrom(Assign(d, pairs[0].0, pairs[0].1), pairs[1..]);
      assert forall e :: e in pairs[1..] ==> e in pairs;
    }
  }

  lemma FreshHead<V>(d: seq<(Literal, V)>, pairs: seq<(Literal, V)>)
    requires DistinctKeys(d + pairs) && |pairs| > 0
    ensures pairs[0].0 !in KeysOf(d)
  {
    forall i | 0 <= i < |d|
      ensures KeysOf(d)[i] != pairs[0].0
    {
      assert (d + pairs)[i].0 != (d + pairs)[|d|].0;
    }
  }
}
