/** What the serializer computes: the tree it emits stands for the saved object under the
    bindings its memo implies, every container and instance node introduces its own memo
    id, and a parent's id is below all ids introduced beneath it. */
module SaverProofs {
  import opened Results
  import opened Values
  import opened Nodes
  import opened Decoding
  import opened Serializer

  /** The value a memo key is the identity of. */
  function KeyValue(k: MemoKey): Value {
    match k
    case LitKey(l) => Lit(l)
    case ObjKey(o) => Obj(o)
    case ClassKey(c) => Class(c)
  }

  /** Every non-literal entry holds its own index, below the size of the memo. A literal's
      slot is re-taken whenever the literal recurs, so literal indices obey neither. */
  predicate MemoOk(memo: Memo) {
    && (forall k :: k in memo && !k.LitKey? ==> memo[k] < |memo|)
    && (forall k1, k2 :: k1 in memo && k2 in memo && !k1.LitKey? && !k2.LitKey? && k1 != k2 ==> memo[k1] != memo[k2])
  }

  /** The bindings a memo implies: each non-literal index stands for the value it was
      assigned to. */
  function Inv(memo: Memo): (r: Bindings)
    requires MemoOk(memo)
    ensures forall k :: k in memo && !k.LitKey? ==> memo[k] in r && r[memo[k]] == KeyValue(k)
  {
    map k | k in memo && !k.LitKey? :: memo[k] := KeyValue(k)
  }

  /** Every id of `ids` lies in `[lo, hi)`. */
  predicate Within(ids: set<nat>, lo: nat, hi: nat) {
    forall m :: m in ids ==> lo <= m < hi
  }

  function BareOf(l: Literal): Node {
    Bare(l)
  }

  /** What the serializer promises of the nodes it emitted for a run of values: ids drawn
      from `[lo, hi)`, each introduced once and after its parent, and the nodes standing
      for the values. */
  predicate SavedSeq(heap: Heap, lo: nat, hi: nat, M: Bindings, ns: seq<Node>, vs: seq<Value>) {
    && Within(SeqIds(ns), lo, hi) && UniqueSeq(ns) && ParentFirstSeq(ns)
    && BindsAll(ns, M) && Vals(ns, M) == vs && AllDescribedSeq(heap, M, ns)
  }

  /** The same for the value nodes of a key/value run. */
  predicate SavedEntries(heap: Heap, lo: nat, hi: nat, M: Bindings, es: seq<(Literal, Node)>, entries: Entries) {
    && Within(SeqIds(ValuesOf(es)), lo, hi) && UniqueSeq(ValuesOf(es)) && ParentFirstSeq(ValuesOf(es))
    && BindsAll(ValuesOf(es), M) && PairVals(es, M) == entries && AllDescribedSeq(heap, M, ValuesOf(es))
  }

  /** A key/value loop's accumulator: each key as a bare node, then its value's node. */
  ghost predicate SavedPairs(heap: Heap, lo: nat, hi: nat, M: Bindings, seg: seq<Node>, entries: Entries) {
    exists es :: seg == Interleave(es, BareOf) && SavedEntries(heap, lo, hi, M, es, entries)
  }

  /** What the serializer promises of one emitted node. */
  predicate SavedOne(heap: Heap, lo: nat, hi: nat, M: Bindings, n: Node, v: Value) {
    Within(Ids(n), lo, hi) && Unique(n) && ParentFirst(n) && Decodes(heap, M, n, v)
  }

  lemma MemoSize(m: Memo, m': Memo)
    requires MemoGrows(m, m')
    ensures |m| <= |m'|
  {
    assert m.Keys <= m'.Keys;
    SubsetSize(m.Keys, m'.Keys);
  }

  lemma SubsetSize<T>(a: set<T>, b: set<T>)
    requires a <= b
    ensures |a| <= |b|
  {
    assert b == a + (b - a);
  }

  /** A growing memo keeps the bindings it implied. */
  lemma InvGrows(m: Memo, m': Memo)
    requires MemoOk(m) && MemoOk(m') && MemoGrows(m, m')
    ensures Extends(Inv(m), Inv(m'))
  {
    forall i | i in Inv(m)
      ensures i in Inv(m') && Inv(m')[i] == Inv(m)[i]
    {
      var k :| k in m && !k.LitKey? && m[k] == i;
    }
  }

  /** Taking a fresh index for a new key, or re-taking a literal's slot, keeps the memo in
      order. */
  lemma RegisterOk(m: Memo, k: MemoKey)
    requires MemoOk(m) && (k.LitKey? || k !in m)
    ensures MemoOk(m[k := |m|]) && MemoGrows(m, m[k := |m|])
    ensures |m[k := |m|]| == if k in m then |m| else |m| + 1
  {
    var m' := m[k := |m|];
    RegisterSize(m, k, |m|);
    assert forall k1 :: k1 in m' && !k1.LitKey? ==> m'[k1] < |m'| by {
      forall k1 | k1 in m' && !k1.LitKey?
        ensures m'[k1] < |m'|
      {
        if k1 != k {
          assert m'[k1] == m[k1];
        }
      }
    }
    assert forall k1, k2 :: k1 in m' && k2 in m' && !k1.LitKey? && !k2.LitKey? && k1 != k2 ==> m'[k1] != m'[k2] by {
      forall k1, k2 | k1 in m' && k2 in m' && !k1.LitKey? && !k2.LitKey? && k1 != k2
        ensures m'[k1] != m'[k2]
      {
        if k1 != k && k2 != k {
          assert m'[k1] == m[k1] && m'[k2] == m[k2];
        } else if k1 == k {
          assert m'[k2] == m[k2] < |m|;
        } else {
          assert m'[k1] == m[k1] < |m|;
        }
      }
    }
  }

  lemma RegisterSize(m: Memo, k: MemoKey, v: nat)
    ensures |m[k := v]| == if k in m then |m| else |m| + 1
  {
    if k in m {
      assert m[k := v].Keys == m.Keys;
    } else {
      assert m[k := v].Keys == m.Keys + {k};
    }
  }

  /** Results that hold for a larger memo as well. */
  lemma SavedSeqStable(heap: Heap, lo: nat, hi: nat, hi': nat, M: Bindings, M': Bindings, ns: seq<Node>, vs: seq<Value>)
    requires SavedSeq(heap, lo, hi, M, ns, vs) && hi <= hi' && Extends(M, M')
    ensures SavedSeq(heap, lo, hi', M', ns, vs)
  {
    ValsStable(ns, M, M');
    DescribedSeqStable(heap, heap, M, M', ns);
  }

  lemma SavedEntriesStable(heap: Heap, lo: nat, hi: nat, hi': nat, M: Bindings, M': Bindings, es: seq<(Literal, Node)>, entries: Entries)
    requires SavedEntries(heap, lo, hi, M, es, entries) && hi <= hi' && Extends(M, M')
    ensures SavedEntries(heap, lo, hi', M', es, entries)
  {
    PairValsStable(es, M, M');
    DescribedSeqStable(heap, heap, M, M', ValuesOf(es));
  }

  lemma SavedOneStable(heap: Heap, lo: nat, lo': nat, hi: nat, hi': nat, M: Bindings, M': Bindings, n: Node, v: Value)
    requires SavedOne(heap, lo, hi, M, n, v) && lo' <= lo && hi <= hi' && Extends(M, M')
    ensures SavedOne(heap, lo', hi', M', n, v)
  {
    ValStable(n, M, M');
    DescribedStable(heap, heap, M, M', n);
  }

  /** Joining one tree's promises with those of the trees after it. */
  lemma Joined(lo: nat, mid: nat, hi: nat, n: Node, rest: seq<Node>)
    requires lo <= mid <= hi
    requires Within(Ids(n), lo, mid) && Unique(n) && ParentFirst(n)
    requires Within(SeqIds(rest), mid, hi) && UniqueSeq(rest) && ParentFirstSeq(rest)
    ensures Within(SeqIds([n] + rest), lo, hi) && UniqueSeq([n] + rest) && ParentFirstSeq([n] + rest)
  {
    var ns := [n] + rest;
    assert ns[0] == n && ns[1..] == rest;
    assert SeqIds(ns) == Ids(n) + SeqIds(rest);
    assert Ids(n) !! SeqIds(rest) by {
      forall m | m in Ids(n)
        ensures m !in SeqIds(rest)
      {
      }
    }
    assert Within(SeqIds(ns), lo, hi) by {
      forall m | m in SeqIds(ns)
        ensures lo <= m < hi
      {
      }
    }
    assert UniqueSeq(ns);
    assert ParentFirstSeq(ns);
  }

  /** The nodes emitted after a prefix that one step extended by a single node. */
  lemma SegmentOne(s: seq<Node>, s1: seq<Node>, s': seq<Node>)
    requires |s1| == |s| + 1 && s1[..|s|] == s && |s1| <= |s'| && s'[..|s1|] == s1
    ensures s'[|s|..] == [s1[|s|]] + s'[|s1|..]
  {
    assert s'[|s|] == s1[|s|];
  }

  /** The nodes emitted after a prefix that one step extended by two nodes. */
  lemma SegmentTwo(s: seq<Node>, s1: seq<Node>, s': seq<Node>)
    requires |s1| == |s| + 2 && s1[..|s|] == s && |s1| <= |s'| && s'[..|s1|] == s1
    ensures s'[|s|..] == [s1[|s|], s1[|s| + 1]] + s'[|s1|..]
  {
    assert s'[|s|] == s1[|s|] && s'[|s| + 1] == s1[|s| + 1];
  }

  lemma BareSaved(heap: Heap, lo: nat, hi: nat, M: Bindings, l: Literal)
    ensures SavedOne(heap, lo, hi, M, Bare(l), Lit(l))
  {
  }

  lemma RefSaved(heap: Heap, lo: nat, hi: nat, M: Bindings, m: nat, v: Value)
    requires m in M && M[m] == v
    ensures SavedOne(heap, lo, hi, M, Fab(Reference(m)), v)
  {
    var n := Fab(Reference(m));
    assert Kids(n.info) == [] && Own(n.info) == {};
    assert Ids(n) == {};
    assert Unique(n) && ParentFirst(n);
    assert AllDescribed(heap, M, n);
  }

  lemma TypeSaved(heap: Heap, lo: nat, hi: nat, M: Bindings, c: QualName)
    ensures SavedOne(heap, lo, hi, M, Fab(TypeNode(c)), Class(c))
  {
    var n := Fab(TypeNode(c));
    assert Kids(n.info) == [] && Own(n.info) == {};
    assert Ids(n) == {};
    assert Unique(n) && ParentFirst(n);
    assert AllDescribed(heap, M, n);
  }

  /** `save_any`: the one node it emits stands for the value, and introduces only fresh ids. */
  lemma {:induction false} SaveAnyOk(heap: Heap, v: Value, st: SaveState)
    requires WellFormed(heap) && ValidIn(heap, v) && MemoOk(st.memo)
    requires SaveAny(heap, v, st).Ok?
    ensures var st' := SaveAny(heap, v, st).value;
      && MemoOk(st'.memo) && |st.memo| <= |st'.memo|
      && SavedOne(heap, |st.memo|, |st'.memo|, Inv(st'.memo), st'.stack[|st.stack|], v)
    decreases Unseen(heap, st.memo), 0, 1
  {
    var st' := SaveAny(heap, v, st).value;
    if !v.Lit? && KeyOf(v) in st.memo {
      assert KeyValue(KeyOf(v)) == v;
      RefSaved(heap, |st.memo|, |st'.memo|, Inv(st'.memo), st.memo[KeyOf(v)], v);
    } else if v.Lit? {
      RegisterOk(st.memo, KeyOf(v));
      BareSaved(heap, |st.memo|, |st'.memo|, Inv(st'.memo), v.lit);
    } else if v.Class? {
      RegisterOk(st.memo, KeyOf(v));
      TypeSaved(heap, |st.memo|, |st'.memo|, Inv(st'.memo), v.cls);
    } else {
      SaveObjOk(heap, v.id, st);
    }
  }

  /** A list or tuple with the given items. */
  function SeqObj(isTuple: bool, items: seq<Value>): HeapObj {
    if isTuple then TupleObj(items) else ListObj(items)
  }

  /** A dict, or an instance of the given class, with the given field mapping. */
  function MapObj(cls: Option<QualName>, entries: Entries): HeapObj {
    match cls
    case None => DictObj(entries)
    case Some(c) => InstanceObj(c, entries)
  }

  /** A first-seen object: registered under `len(memo)`, then saved by its kind's saver. */
  lemma {:induction false} SaveObjOk(heap: Heap, o: ObjId, st: SaveState)
    requires WellFormed(heap) && o < |heap| && ObjKey(o) !in st.memo && MemoOk(st.memo)
    requires SaveAny(heap, Obj(o), st).Ok?
    ensures var st' := SaveAny(heap, Obj(o), st).value;
      && MemoOk(st'.memo) && |st.memo| <= |st'.memo|
      && SavedOne(heap, |st.memo|, |st'.memo|, Inv(st'.memo), st'.stack[|st.stack|], Obj(o))
    decreases Unseen(heap, st.memo), 0, 0
  {
    var idx := |st.memo|;
    var st1 := st.(memo := st.memo[ObjKey(o) := idx]);
    RegisterOk(st.memo, ObjKey(o));
    UnseenRegister(heap, st.memo, o, idx);
    ClosedHolds(heap, o);
    match heap[o]
    case ListObj(items) =>
      assert SaveAny(heap, Obj(o), st) == SaveItemList(heap, false, items, idx, st1);
      SaveItemListOk(heap, false, o, items, idx, st1);
    case TupleObj(items) =>
      assert SaveAny(heap, Obj(o), st) == SaveItemList(heap, true, items, idx, st1);
      SaveItemListOk(heap, true, o, items, idx, st1);
    case DictObj(entries) =>
      assert SaveAny(heap, Obj(o), st) == SaveItemDict(heap, None, entries, idx, st1);
      SaveItemDictOk(heap, None, o, entries, idx, st1);
    case InstanceObj(c, fields) =>
      assert SaveAny(heap, Obj(o), st) == SaveItemDict(heap, Some(c), fields, idx, st1);
      SaveItemDictOk(heap, Some(c), o, fields, idx, st1);
  }

  /** `save_list` and `save_tuple`: the node introduces the object's index and its items
      stand for the elements in order. */
  lemma {:induction false} SaveItemListOk(heap: Heap, isTuple: bool, o: ObjId, items: seq<Value>, idx: nat, st: SaveState)
    requires WellFormed(heap) && o < |heap| && heap[o] == SeqObj(isTuple, items)
    requires forall i :: 0 <= i < |items| ==> ValidIn(heap, items[i])
    requires MemoOk(st.memo) && ObjKey(o) in st.memo && st.memo[ObjKey(o)] == idx && |st.memo| == idx + 1
    requires SaveItemList(heap, isTuple, items, idx, st).Ok?
    ensures var st' := SaveItemList(heap, isTuple, items, idx, st).value;
      && MemoOk(st'.memo) && |st.memo| <= |st'.memo|
      && SavedOne(heap, idx, |st'.memo|, Inv(st'.memo), st'.stack[|st.stack|], Obj(o))
    decreases Unseen(heap, st.memo), 2, 0
  {
    ListUnfold(heap, isTuple, items, idx, st);
    var st1 := PushContext(Put(st, Fab(SeqNode(isTuple, idx, []))));
    var st2 := SaveItems(heap, items, 0, st1).value;
    SaveItemsOk(heap, items, 0, st1);
    assert st2.stack[|st1.stack|..] == st2.stack;
    assert items[0..] == items;
    ListSaved(heap, isTuple, o, items, idx, st.memo, st2.memo, st2.stack);
  }

  /** A list or tuple save that succeeds saves the items in a child context and emits the
      node holding them. */
  lemma ListUnfold(heap: Heap, isTuple: bool, items: seq<Value>, idx: nat, st: SaveState)
    requires Closed(heap) && forall i :: 0 <= i < |items| ==> ValidIn(heap, items[i])
    requires SaveItemList(heap, isTuple, items, idx, st).Ok?
    ensures SaveItems(heap, items, 0, PushContext(Put(st, Fab(SeqNode(isTuple, idx, []))))).Ok?
    ensures var st2 := SaveItems(heap, items, 0, PushContext(Put(st, Fab(SeqNode(isTuple, idx, []))))).value;
      var st' := SaveItemList(heap, isTuple, items, idx, st).value;
      st'.memo == st2.memo && st'.stack[|st.stack|] == Fab(SeqNode(isTuple, idx, st2.stack))
  {
  }

  /** The node of a saved list or tuple, given what its items' nodes promise. */
  lemma ListSaved(heap: Heap, isTuple: bool, o: ObjId, items: seq<Value>, idx: nat, m: Memo, m': Memo, ns: seq<Node>)
    requires o < |heap| && heap[o] == SeqObj(isTuple, items)
    requires MemoOk(m) && ObjKey(o) in m && m[ObjKey(o)] == idx && |m| == idx + 1
    requires MemoOk(m') && MemoGrows(m, m') && |m| <= |m'|
    requires SavedSeq(heap, |m|, |m'|, Inv(m'), ns, items)
    ensures SavedOne(heap, idx, |m'|, Inv(m'), Fab(SeqNode(isTuple, idx, ns)), Obj(o))
  {
    var info := SeqNode(isTuple, idx, ns);
    var M := Inv(m');
    InvAt(m, m', o, idx);
    IntroParts(info);
    assert Described(heap, M, info);
    IntroSaved(heap, |m'|, M, info, Obj(o));
  }

  /** The item loop: one node per element, each standing for it. */
  lemma {:induction false} SaveItemsOk(heap: Heap, items: seq<Value>, i: nat, st: SaveState)
    requires WellFormed(heap) && (forall j :: 0 <= j < |items| ==> ValidIn(heap, items[j])) && i <= |items|
    requires MemoOk(st.memo) && SaveItems(heap, items, i, st).Ok?
    ensures var st' := SaveItems(heap, items, i, st).value;
      && MemoOk(st'.memo) && |st.memo| <= |st'.memo|
      && SavedSeq(heap, |st.memo|, |st'.memo|, Inv(st'.memo), st'.stack[|st.stack|..], items[i..])
    decreases Unseen(heap, st.memo), 1, |items| - i
  {
    var st' := SaveItems(heap, items, i, st).value;
    if i == |items| {
      assert st' == st && st'.stack[|st.stack|..] == [] && items[i..] == [];
      assert SavedSeq(heap, |st.memo|, |st.memo|, Inv(st.memo), [], []);
    } else {
      var st1 := SaveAny(heap, items[i], st).value;
      assert SaveAny(heap, items[i], st).Ok? && SaveItems(heap, items, i + 1, st1) == Ok(st') by {
        ItemsUnfold(heap, items, i, st);
      }
      assert MemoOk(st1.memo) && |st.memo| <= |st1.memo|
        && SavedOne(heap, |st.memo|, |st1.memo|, Inv(st1.memo), st1.stack[|st.stack|], items[i]) by {
        SaveAnyOk(heap, items[i], st);
      }
      UnseenShrinks(heap, st.memo, st1.memo);
      SaveItemsOk(heap, items, i + 1, st1);
      ItemsSaved(heap, items, i, st, st1, st');
    }
  }

  /** An item loop that succeeds saves the item, then the rest. */
  lemma ItemsUnfold(heap: Heap, items: seq<Value>, i: nat, st: SaveState)
    requires Closed(heap) && (forall j :: 0 <= j < |items| ==> ValidIn(heap, items[j])) && i < |items|
    requires SaveItems(heap, items, i, st).Ok?
    ensures SaveAny(heap, items[i], st).Ok?
    ensures SaveItems(heap, items, i + 1, SaveAny(heap, items[i], st).value) == SaveItems(heap, items, i, st)
  {
  }

  /** The first item's node followed by the rest's nodes promise what all the nodes should. */
  lemma ItemsSaved(heap: Heap, items: seq<Value>, i: nat, st: SaveState, st1: SaveState, st': SaveState)
    requires i < |items| && MemoOk(st1.memo) && MemoOk(st'.memo)
    requires MemoGrows(st1.memo, st'.memo)
    requires |st1.stack| == |st.stack| + 1 && |st.memo| <= |st1.memo| <= |st'.memo|
    requires st1.stack[..|st.stack|] == st.stack && |st1.stack| <= |st'.stack| && st'.stack[..|st1.stack|] == st1.stack
    requires SavedOne(heap, |st.memo|, |st1.memo|, Inv(st1.memo), st1.stack[|st.stack|], items[i])
    requires SavedSeq(heap, |st1.memo|, |st'.memo|, Inv(st'.memo), st'.stack[|st1.stack|..], items[i + 1..])
    ensures SavedSeq(heap, |st.memo|, |st'.memo|, Inv(st'.memo), st'.stack[|st.stack|..], items[i..])
  {
    var n := st1.stack[|st.stack|];
    SegmentOne(st.stack, st1.stack, st'.stack);
    assert items[i..] == [items[i]] + items[i + 1..];
    InvGrows(st1.memo, st'.memo);
    SavedOneStable(heap, |st.memo|, |st.memo|, |st1.memo|, |st'.memo|, Inv(st1.memo), Inv(st'.memo), n, items[i]);
    SeqSaved(heap, |st.memo|, |st1.memo|, |st'.memo|, Inv(st'.memo), n, st'.stack[|st1.stack|..], items[i], items[i + 1..]);
  }

  lemma SeqSaved(heap: Heap, lo: nat, mid: nat, hi: nat, M: Bindings, n: Node, rest: seq<Node>, v: Value, vs: seq<Value>)
    requires lo <= mid <= hi && SavedOne(heap, lo, mid, M, n, v) && SavedSeq(heap, mid, hi, M, rest, vs)
    ensures SavedSeq(heap, lo, hi, M, [n] + rest, [v] + vs)
  {
    var ns := [n] + rest;
    assert ns[0] == n && ns[1..] == rest;
    Joined(lo, mid, hi, n, rest);
    ValsCons(ns, M);
  }

  /** `save_dict` and `save_class_instance`: the node introduces the object's index and its
      item dict maps each key to a node standing for that key's value, in order. */
  lemma {:induction false} SaveItemDictOk(heap: Heap, cls: Option<QualName>, o: ObjId, entries: Entries, idx: nat, st: SaveState)
    requires WellFormed(heap) && o < |heap| && heap[o] == MapObj(cls, entries)
    requires forall i :: 0 <= i < |entries| ==> ValidIn(heap, entries[i].1)
    requires MemoOk(st.memo) && ObjKey(o) in st.memo && st.memo[ObjKey(o)] == idx && |st.memo| == idx + 1
    requires SaveItemDict(heap, cls, entries, idx, st).Ok?
    ensures var st' := SaveItemDict(heap, cls, entries, idx, st).value;
      && MemoOk(st'.memo) && |st.memo| <= |st'.memo|
      && SavedOne(heap, idx, |st'.memo|, Inv(st'.memo), st'.stack[|st.stack|], Obj(o))
    decreases Unseen(heap, st.memo), 2, 0
  {
    DictUnfold(heap, cls, entries, idx, st);
    var st1 := PushContext(Put(st, Fab(MapNode(cls, idx, []))));
    var st2 := SaveEntries(heap, entries, 0, st1).value;
    SaveEntriesOk(heap, entries, 0, st1);
    assert st2.stack[|st1.stack|..] == st2.stack;
    assert entries[0..] == entries;
    var es :| st2.stack == Interleave(es, BareOf)
      && SavedEntries(heap, |st1.memo|, |st2.memo|, Inv(st2.memo), es, entries);
    assert DistinctKeys(entries) by {
      assert heap[o].DictObj? ==> DistinctKeys(heap[o].entries);
      assert heap[o].InstanceObj? ==> DistinctKeys(heap[o].fields);
    }
    PairSaved(es, Inv(st2.memo), entries);
    DictSaved(heap, cls, o, entries, idx, st.memo, st2.memo, es);
  }

  /** A dict or instance save that succeeds saves the keys and values in a child context
      and emits the node holding their pairing. */
  lemma DictUnfold(heap: Heap, cls: Option<QualName>, entries: Entries, idx: nat, st: SaveState)
    requires Closed(heap) && forall i :: 0 <= i < |entries| ==> ValidIn(heap, entries[i].1)
    requires SaveItemDict(heap, cls, entries, idx, st).Ok?
    ensures SaveEntries(heap, entries, 0, PushContext(Put(st, Fab(MapNode(cls, idx, []))))).Ok?
    ensures var st2 := SaveEntries(heap, entries, 0, PushContext(Put(st, Fab(MapNode(cls, idx, []))))).value;
      var st' := SaveItemDict(heap, cls, entries, idx, st).value;
      && PairUp(st2.stack, KeyOfNode).Ok?
      && st'.memo == st2.memo && st'.stack[|st.stack|] == Fab(MapNode(cls, idx, PairUp(st2.stack, KeyOfNode).value))
  {
  }

  /** Pairing the saved keys and values gives them back in order, because the keys of a
      dict are distinct. */
  lemma PairSaved(es: seq<(Literal, Node)>, M: Bindings, entries: Entries)
    requires DistinctKeys(entries) && BindsAll(ValuesOf(es), M) && PairVals(es, M) == entries
    ensures PairUp(Interleave(es, BareOf), KeyOfNode) == Ok(es)
    ensures AssignAll([], PairVals(es, M)) == entries
  {
    PairUpInterleave(es, BareOf, KeyOfNode);
    assert [] + es == es && [] + entries == entries;
    assert DistinctKeys(es) by {
      forall i, j | 0 <= i < j < |es|
        ensures es[i].0 != es[j].0
      {
        assert es[i].0 == entries[i].0 && es[j].0 == entries[j].0;
      }
    }
    AssignAllFresh([], es);
    AssignAllFresh([], entries);
  }

  /** The node of a saved dict or instance, given what its value nodes promise. */
  lemma DictSaved(heap: Heap, cls: Option<QualName>, o: ObjId, entries: Entries, idx: nat, m: Memo, m': Memo, es: seq<(Literal, Node)>)
    requires o < |heap| && heap[o] == MapObj(cls, entries)
    requires MemoOk(m) && ObjKey(o) in m && m[ObjKey(o)] == idx && |m| == idx + 1
    requires MemoOk(m') && MemoGrows(m, m') && |m| <= |m'|
    requires SavedEntries(heap, |m|, |m'|, Inv(m'), es, entries)
    requires AssignAll([], PairVals(es, Inv(m'))) == entries
    ensures SavedOne(heap, idx, |m'|, Inv(m'), Fab(MapNode(cls, idx, es)), Obj(o))
  {
    var info := MapNode(cls, idx, es);
    var M := Inv(m');
    InvAt(m, m', o, idx);
    IntroParts(info);
    assert Described(heap, M, info);
    IntroSaved(heap, |m'|, M, info, Obj(o));
  }

  /** An introducing node whose children were saved after it stands for the value its own
      id is bound to. */
  lemma IntroSaved(heap: Heap, hi: nat, M: Bindings, info: FabInfo, v: Value)
    requires info.IsIntro() && Described(heap, M, info) && M[info.memoId] == v && info.memoId < hi
    requires Within(SeqIds(Kids(info)), info.memoId + 1, hi)
    requires UniqueSeq(Kids(info)) && ParentFirstSeq(Kids(info)) && AllDescribedSeq(heap, M, Kids(info))
    ensures SavedOne(heap, info.memoId, hi, M, Fab(info), v)
  {
    KidsSmaller(info);
    assert Val(Fab(info), M) == v;
    assert AllDescribed(heap, M, Fab(info));
  }

  /** A container or instance node holds its children and introduces its own id alone. */
  lemma IntroParts(info: FabInfo)
    requires info.IsIntro()
    ensures Own(info) == {info.memoId}
    ensures info.ListNode? || info.TupleNode? ==> Kids(info) == info.items
    ensures info.DictNode? || info.InstanceNode? ==> Kids(info) == ValuesOf(info.entries)
  {
  }

  /** The object a save registered first keeps its index in every later memo. */
  lemma InvAt(m: Memo, m': Memo, o: ObjId, idx: nat)
    requires MemoOk(m') && MemoGrows(m, m') && ObjKey(o) in m && m[ObjKey(o)] == idx
    ensures idx in Inv(m') && Inv(m')[idx] == Obj(o)
  {
    assert ObjKey(o) in m' && m'[ObjKey(o)] == idx;
  }

  /** The key/value loop: each key as a bare node, then a node standing for its value. */
  lemma {:induction false} SaveEntriesOk(heap: Heap, entries: Entries, i: nat, st: SaveState)
    requires WellFormed(heap) && (forall j :: 0 <= j < |entries| ==> ValidIn(heap, entries[j].1)) && i <= |entries|
    requires MemoOk(st.memo) && SaveEntries(heap, entries, i, st).Ok?
    ensures var st' := SaveEntries(heap, entries, i, st).value;
      && MemoOk(st'.memo) && |st.memo| <= |st'.memo|
      && SavedPairs(heap, |st.memo|, |st'.memo|, Inv(st'.memo), st'.stack[|st.stack|..], entries[i..])
    decreases Unseen(heap, st.memo), 1, |entries| - i
  {
    var st' := SaveEntries(heap, entries, i, st).value;
    if i == |entries| {
      assert st' == st && entries[i..] == [];
      NoPairs(heap, |st.memo|, Inv(st.memo), st.stack);
    } else {
      var st1 := SavePair(heap, entries[i], st).value;
      assert SavePair(heap, entries[i], st).Ok? && SaveEntries(heap, entries, i + 1, st1) == Ok(st') by {
        EntriesUnfold(heap, entries, i, st);
      }
      assert MemoOk(st1.memo) && |st.memo| <= |st1.memo|
        && SavedOne(heap, |st.memo|, |st1.memo|, Inv(st1.memo), st1.stack[|st.stack| + 1], entries[i].1) by {
        SavePairOk(heap, entries[i], st);
      }
      UnseenShrinks(heap, st.memo, st1.memo);
      SaveEntriesOk(heap, entries, i + 1, st1);
      EntriesSaved(heap, entries, i, st, st1, st');
    }
  }

  /** One pass of the key/value loop: the key's bare node, then a node standing for the
      value. */
  lemma {:induction false} SavePairOk(heap: Heap, e: (Literal, Value), st: SaveState)
    requires WellFormed(heap) && ValidIn(heap, e.1) && MemoOk(st.memo)
    requires SavePair(heap, e, st).Ok?
    ensures var st' := SavePair(heap, e, st).value;
      && MemoOk(st'.memo) && |st.memo| <= |st'.memo|
      && SavedOne(heap, |st.memo|, |st'.memo|, Inv(st'.memo), st'.stack[|st.stack| + 1], e.1)
    decreases Unseen(heap, st.memo), 0, 2
  {
    var st1 := SaveAny(heap, Lit(e.0), st).value;
    KeySaved(heap, e.0, st);
    UnseenShrinks(heap, st.memo, st1.memo);
    SaveAnyOk(heap, e.1, st1);
    var st' := SavePair(heap, e, st).value;
    assert st' == SaveAny(heap, e.1, st1).value;
    assert |st1.stack| == |st.stack| + 1;
    SavedOneStable(heap, |st1.memo|, |st.memo|, |st'.memo|, |st'.memo|, Inv(st'.memo), Inv(st'.memo), st'.stack[|st.stack| + 1], e.1);
  }

  /** A dict key is saved as itself, taking a memo slot. */
  lemma KeySaved(heap: Heap, k: Literal, st: SaveState)
    requires Closed(heap) && MemoOk(st.memo)
    ensures var st1 := SaveAny(heap, Lit(k), st).value;
      && st1.stack == st.stack + [Bare(k)] && MemoOk(st1.memo) && |st.memo| <= |st1.memo|
      && MemoGrows(st.memo, st1.memo)
  {
    assert SaveAny(heap, Lit(k), st).value.memo == st.memo[LitKey(k) := |st.memo|];
    RegisterOk(st.memo, LitKey(k));
  }

  /** A key/value loop that succeeds saves the first pair, then the rest. */
  lemma EntriesUnfold(heap: Heap, entries: Entries, i: nat, st: SaveState)
    requires Closed(heap) && (forall j :: 0 <= j < |entries| ==> ValidIn(heap, entries[j].1)) && i < |entries|
    requires SaveEntries(heap, entries, i, st).Ok?
    ensures SavePair(heap, entries[i], st).Ok?
    ensures SaveEntries(heap, entries, i + 1, SavePair(heap, entries[i], st).value) == SaveEntries(heap, entries, i, st)
  {
  }

  lemma NoPairs(heap: Heap, lo: nat, M: Bindings, s: seq<Node>)
    ensures SavedPairs(heap, lo, lo, M, s[|s|..], [])
  {
    assert s[|s|..] == Interleave([], BareOf);
    assert SavedEntries(heap, lo, lo, M, [], []);
  }

  lemma EntriesSaved(heap: Heap, entries: Entries, i: nat, st: SaveState, st1: SaveState, st': SaveState)
    requires i < |entries| && MemoOk(st1.memo) && MemoOk(st'.memo)
    requires MemoGrows(st1.memo, st'.memo) && |st.memo| <= |st1.memo| <= |st'.memo|
    requires |st1.stack| == |st.stack| + 2 && st1.stack[..|st.stack|] == st.stack && st1.stack[|st.stack|] == Bare(entries[i].0)
    requires |st1.stack| <= |st'.stack| && st'.stack[..|st1.stack|] == st1.stack
    requires SavedOne(heap, |st.memo|, |st1.memo|, Inv(st1.memo), st1.stack[|st.stack| + 1], entries[i].1)
    requires SavedPairs(heap, |st1.memo|, |st'.memo|, Inv(st'.memo), st'.stack[|st1.stack|..], entries[i + 1..])
    ensures SavedPairs(heap, |st.memo|, |st'.memo|, Inv(st'.memo), st'.stack[|st.stack|..], entries[i..])
  {
    var n := st1.stack[|st.stack| + 1];
    assert SavedOne(heap, |st.memo|, |st1.memo|, Inv(st'.memo), n, entries[i].1) by {
      InvGrows(st1.memo, st'.memo);
      SavedOneStable(heap, |st.memo|, |st.memo|, |st1.memo|, |st1.memo|, Inv(st1.memo), Inv(st'.memo), n, entries[i].1);
    }
    assert st'.stack[|st.stack|..] == [Bare(entries[i].0), n] + st'.stack[|st1.stack|..] by {
      SegmentTwo(st.stack, st1.stack, st'.stack);
    }
    assert entries[i..] == [entries[i]] + entries[i + 1..];
    PairsCons(heap, |st.memo|, |st1.memo|, |st'.memo|, Inv(st'.memo), entries[i].0, n, st'.stack[|st1.stack|..], entries[i].1, entries[i + 1..]);
  }

  /** A key's bare node and its value's node, ahead of the nodes of the entries after it. */
  lemma PairsCons(heap: Heap, lo: nat, mid: nat, hi: nat, M: Bindings, k: Literal, n: Node, seg: seq<Node>, v: Value, rest: Entries)
    requires lo <= mid <= hi && SavedOne(heap, lo, mid, M, n, v) && SavedPairs(heap, mid, hi, M, seg, rest)
    ensures SavedPairs(heap, lo, hi, M, [Bare(k), n] + seg, [(k, v)] + rest)
  {
    var es :| seg == Interleave(es, BareOf) && SavedEntries(heap, mid, hi, M, es, rest);
    var es' := [(k, n)] + es;
    assert Interleave(es', BareOf) == [Bare(k), n] + seg;
    EntriesCons(heap, lo, mid, hi, M, k, n, es, v, rest);
  }

  lemma EntriesCons(heap: Heap, lo: nat, mid: nat, hi: nat, M: Bindings, k: Literal, n: Node, es: seq<(Literal, Node)>, v: Value, rest: Entries)
    requires lo <= mid <= hi && SavedOne(heap, lo, mid, M, n, v) && SavedEntries(heap, mid, hi, M, es, rest)
    ensures SavedEntries(heap, lo, hi, M, [(k, n)] + es, [(k, v)] + rest)
  {
    var es' := [(k, n)] + es;
    assert ValuesOf(es') == [n] + ValuesOf(es);
    Joined(lo, mid, hi, n, ValuesOf(es));
    DescribedCons(heap, M, n, ValuesOf(es));
    PairValsCons(M, k, n, es, v);
  }

  /** A node that stands for something, ahead of nodes that do. */
  lemma DescribedCons(heap: Heap, M: Bindings, n: Node, rest: seq<Node>)
    requires Binds(n, M) && AllDescribed(heap, M, n) && BindsAll(rest, M) && AllDescribedSeq(heap, M, rest)
    ensures BindsAll([n] + rest, M) && AllDescribedSeq(heap, M, [n] + rest)
  {
    assert ([n] + rest)[0] == n && ([n] + rest)[1..] == rest;
  }

  /** The values of a pair ahead of other pairs. */
  lemma PairValsCons(M: Bindings, k: Literal, n: Node, es: seq<(Literal, Node)>, v: Value)
    requires Binds(n, M) && Val(n, M) == v && BindsAll(ValuesOf([(k, n)] + es), M) && BindsAll(ValuesOf(es), M)
    ensures PairVals([(k, n)] + es, M) == [(k, v)] + PairVals(es, M)
  {
  }

  /** The bindings the serializer's final memo implies. */
  ghost function SavedBindings(heap: Heap, v: Value): Bindings
    requires WellFormed(heap) && ValidIn(heap, v) && SaveAny(heap, v, Fresh()).Ok?
  {
    SaveAnyOk(heap, v, Fresh());
    Inv(SaveAny(heap, v, Fresh()).value.memo)
  }

  /** Distinct memo indices stand for distinct values. */
  lemma InvOneToOne(memo: Memo)
    requires MemoOk(memo)
    ensures OneToOne(Inv(memo))
  {
    var M := Inv(memo);
    forall i, j | i in M && j in M && i != j
      ensures M[i] != M[j]
    {
      var ki :| ki in memo && !ki.LitKey? && memo[ki] == i;
      var kj :| kj in memo && !kj.LitKey? && memo[kj] == j;
    }
  }

  /** Module-level `save`: the tree it returns stands for the saved value under bindings
      that give distinct values distinct ids, introduces each id once, and introduces a
      container's id before any id beneath it. */
  lemma SaveDecodes(heap: Heap, v: Value)
    requires WellFormed(heap) && ValidIn(heap, v) && Save(heap, v).Ok?
    ensures SaveAny(heap, v, Fresh()).Ok?
    ensures var n := Save(heap, v).value; var M := SavedBindings(heap, v);
      Unique(n) && ParentFirst(n) && Decodes(heap, M, n, v) && OneToOne(M)
  {
    var st' := SaveAny(heap, v, Fresh()).value;
    SaveAnyOk(heap, v, Fresh());
    assert Save(heap, v).value == st'.stack[0];
    InvOneToOne(st'.memo);
  }
}
