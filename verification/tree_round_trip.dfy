/** When a save-then-load round trip succeeds outright: the value reaches no object and no
    class twice, neither along two paths nor around a cycle, and every class it reaches is
    one the registry resolves. `save` then emits no `reference` node, so `load` succeeds
    and gives back a fresh copy. */
module TreeRoundTrip {
  import opened Results
  import opened Values
  import opened Nodes
  import opened Serializer
  import opened SaverProofs
  import opened SaveTotality
  import Builder
  import opened LoadTotality
  import opened RoundTrip

  /** The identities met walking `v` depth first, at most `d` objects deep: None when the
      walk goes deeper, or when it meets an object or a class twice. */
  function Reach(heap: Heap, v: Value, d: nat): Option<set<MemoKey>>
    requires Closed(heap) && ValidIn(heap, v)
    decreases d, 0, 0, 0
  {
    match v
    case Lit(_) => Some({})
    case Class(c) => Some({ClassKey(c)})
    case Obj(o) =>
      if d == 0 then None
      else
        match ReachSeq(heap, Children(heap[o]), 0, d - 1)
        case None => None
        case Some(s) => if ObjKey(o) in s then None else Some({ObjKey(o)} + s)
  }

  /** The same for the values of `vs` from the `i`-th on, which must meet disjoint sets. */
  function ReachSeq(heap: Heap, vs: seq<Value>, i: nat, d: nat): Option<set<MemoKey>>
    requires Closed(heap) && (forall j :: 0 <= j < |vs| ==> ValidIn(heap, vs[j])) && i <= |vs|
    decreases d, 1, |vs| - i
  {
    if i == |vs| then Some({})
    else
      match (Reach(heap, vs[i], d), ReachSeq(heap, vs, i + 1, d))
      case (Some(a), Some(b)) => if a !! b then Some(a + b) else None
      case _ => None
  }

  /** Every class met, as a value or as the class of an instance, is in the registry. */
  predicate Importable(heap: Heap, reg: Builder.Registry, s: set<MemoKey>) {
    forall k :: k in s ==>
      && (k.ClassKey? ==> k.cls in reg)
      && (k.ObjKey? && k.id < |heap| && heap[k.id].InstanceObj? ==> heap[k.id].cls in reg)
  }

  /** The memo `m'` adds to `m` only literals and identities of `s`. */
  predicate Added(m: Memo, m': Memo, s: set<MemoKey>) {
    forall k :: k in m' && k !in m ==> k.LitKey? || k in s
  }

  /** `save` then `load` both succeed on a value that reaches nothing twice, whose objects
      all have a field mapping and whose classes all import, and the result is a fresh
      copy of the value. */
  lemma SaveLoadSucceeds(reg: Builder.Registry, heap: Heap, world: Heap, v: Value, d: nat)
    requires WellFormed(heap) && ValidIn(heap, v) && NoOpaque(heap)
    requires Reach(heap, v, d).Some? && Importable(heap, reg, Reach(heap, v, d).value)
    ensures Save(heap, v).Ok? && Builder.Load(reg, world, Save(heap, v).value).Ok?
    ensures var (h', v') := Builder.Load(reg, world, Save(heap, v).value).value;
      exists f :: FreshCopy(heap, world, h', v, v', f)
  {
    AnyTree(heap, reg, v, d, Reach(heap, v, d).value, Fresh());
    var n := Save(heap, v).value;
    assert n == SaveAny(heap, v, Fresh()).value.stack[0];
    SaveDecodes(heap, v);
    LoadSucceeds(reg, world, n);
    SaveLoadRoundTrip(reg, heap, world, v);
  }

  /** A list holding itself is reached at no depth: `save` would meet it a second time. */
  lemma {:induction false} SelfListUnreached(heap: Heap, o: ObjId, d: nat)
    requires Closed(heap) && o < |heap| && heap[o] == ListObj([Obj(o)])
    ensures Reach(heap, Obj(o), d).None?
    decreases d
  {
    if d > 0 {
      SelfListUnreached(heap, o, d - 1);
      assert ReachSeq(heap, [Obj(o)], 1, d - 1) == Some({});
    }
  }

  /** A list holding the same class twice is not reached either. */
  lemma ClassTwiceUnreached(c: QualName, d: nat)
    ensures Reach([ListObj([Class(c), Class(c)])], Obj(0), d).None?
  {
    var heap := [ListObj([Class(c), Class(c)])];
    if d > 0 {
      var vs := [Class(c), Class(c)];
      assert Reach(heap, vs[1], d - 1) == Some({ClassKey(c)});
      assert ReachSeq(heap, vs, 2, d - 1) == Some({});
      assert {ClassKey(c)} + {} == {ClassKey(c)};
      assert ReachSeq(heap, vs, 1, d - 1) == Some({ClassKey(c)});
      assert Reach(heap, vs[0], d - 1) == Some({ClassKey(c)});
      assert ReachSeq(heap, vs, 0, d - 1).None?;
      assert Children(heap[0]) == vs;
    }
  }

  lemma {:induction false} ReachNoLit(heap: Heap, v: Value, d: nat)
    requires Closed(heap) && ValidIn(heap, v) && Reach(heap, v, d).Some?
    ensures forall k :: k in Reach(heap, v, d).value ==> !k.LitKey?
    decreases d, 0, 0, 0
  {
    if v.Obj? {
      ReachSeqNoLit(heap, Children(heap[v.id]), 0, d - 1);
    }
  }

  lemma {:induction false} ReachSeqNoLit(heap: Heap, vs: seq<Value>, i: nat, d: nat)
    requires Closed(heap) && (forall j :: 0 <= j < |vs| ==> ValidIn(heap, vs[j])) && i <= |vs|
    requires ReachSeq(heap, vs, i, d).Some?
    ensures forall k :: k in ReachSeq(heap, vs, i, d).value ==> !k.LitKey?
    decreases d, 1, |vs| - i
  {
    if i < |vs| {
      ReachNoLit(heap, vs[i], d);
      ReachSeqNoLit(heap, vs, i + 1, d);
    }
  }

  lemma {:induction false} ResolvableAll(ns: seq<Node>, reg: Builder.Registry)
    requires forall k :: 0 <= k < |ns| ==> Resolvable(ns[k], reg)
    ensures ResolvableSeq(ns, reg)
    decreases |ns|
  {
    if |ns| > 0 {
      ResolvableAll(ns[1..], reg);
    }
  }

  /** Pairing an accumulator brings in no value it does not hold. */
  lemma {:induction false} PairIntoFrom<V>(d: seq<(Literal, V)>, acc: seq<V>, key: V -> Option<Literal>)
    requires |acc| % 2 == 0 && PairInto(d, acc, key).Ok?
    ensures forall e :: e in PairInto(d, acc, key).value ==> e in d || e.1 in acc
    decreases |acc|
  {
    if |acc| > 0 {
      var k := key(acc[0]).value;
      AssignFrom(d, k, acc[1]);
      PairIntoFrom(Assign(d, k, acc[1]), acc[2..], key);
      assert forall x :: x in acc[2..] ==> x in acc;
    }
  }

  /** The walk from `v` meets `s`, every class of it imports, and none of it is in the
      memo `m`. */
  predicate ValReady(heap: Heap, reg: Builder.Registry, v: Value, d: nat, s: set<MemoKey>, m: Memo) {
    && Closed(heap) && ValidIn(heap, v) && NoOpaque(heap)
    && Reach(heap, v, d) == Some(s) && Importable(heap, reg, s) && s !! m.Keys
  }

  /** The same for the walk over `vs` from the `i`-th value on. */
  predicate SeqReady(heap: Heap, reg: Builder.Registry, vs: seq<Value>, i: nat, d: nat, t: set<MemoKey>, m: Memo) {
    && Closed(heap) && (forall j :: 0 <= j < |vs| ==> ValidIn(heap, vs[j])) && NoOpaque(heap)
    && i <= |vs| && ReachSeq(heap, vs, i, d) == Some(t) && Importable(heap, reg, t) && t !! m.Keys
  }

  /** Every node of `s` from slot `lo` on has no reference. */
  predicate ResolvableFrom(s: seq<Node>, lo: nat, reg: Builder.Registry) {
    forall k :: lo <= k < |s| ==> Resolvable(s[k], reg)
  }

  /** Saving a value whose walk meets `s`, none of it in the memo yet, emits a node with no
      reference, and memoizes only literals and members of `s`. */
  lemma {:induction false} AnyTree(heap: Heap, reg: Builder.Registry, v: Value, d: nat, s: set<MemoKey>, st: SaveState)
    requires ValReady(heap, reg, v, d, s, st.memo)
    ensures SaveAny(heap, v, st).Ok?
    ensures var st' := SaveAny(heap, v, st).value;
      ResolvableFrom(st'.stack, |st.stack|, reg) && Added(st.memo, st'.memo, s)
    decreases d, 0, 2, 0
  {
    AnySaves(heap, v, st);
    if v.Class? {
      assert KeyOf(v) in s;
      assert Kids(TypeNode(v.cls)) == [];
    } else if v.Obj? {
      ObjTree(heap, reg, v.id, d, s, st);
    }
  }

  /** An object met once is memoized first, then its children are saved. */
  lemma {:induction false} ObjTree(heap: Heap, reg: Builder.Registry, o: ObjId, d: nat, s: set<MemoKey>, st: SaveState)
    requires o < |heap| && ValReady(heap, reg, Obj(o), d, s, st.memo)
    ensures SaveAny(heap, Obj(o), st).Ok?
    ensures var st' := SaveAny(heap, Obj(o), st).value;
      ResolvableFrom(st'.stack, |st.stack|, reg) && Added(st.memo, st'.memo, s)
    decreases d, 0, 1, 0
  {
    var t := ObjParts(heap, reg, o, d, s, st.memo);
    match heap[o]
    case ListObj(items) =>
      SeqObjTree(heap, reg, o, false, items, d, t, st);
    case TupleObj(items) =>
      SeqObjTree(heap, reg, o, true, items, d, t, st);
    case DictObj(entries) =>
      MapObjTree(heap, reg, o, None, entries, d, t, st);
    case InstanceObj(c, fields) =>
      MapObjTree(heap, reg, o, Some(c), fields, d, t, st);
  }

  /** What the walk from an object promises of the walk `t` from its children. */
  lemma ObjParts(heap: Heap, reg: Builder.Registry, o: ObjId, d: nat, s: set<MemoKey>, m: Memo) returns (t: set<MemoKey>)
    requires o < |heap| && ValReady(heap, reg, Obj(o), d, s, m)
    ensures d > 0 && ObjKey(o) !in m && s == {ObjKey(o)} + t
    ensures heap[o].InstanceObj? ==> heap[o].cls in reg
    ensures SeqReady(heap, reg, Children(heap[o]), 0, d - 1, t, m[ObjKey(o) := |m|])
  {
    ClosedHolds(heap, o);
    t := ReachSeq(heap, Children(heap[o]), 0, d - 1).value;
    assert ObjKey(o) in s;
  }

  /** A list or tuple met once: its node holds its items' nodes, none a reference. */
  lemma {:induction false} SeqObjTree(heap: Heap, reg: Builder.Registry, o: ObjId, isTuple: bool, items: seq<Value>, d: nat, t: set<MemoKey>, st: SaveState)
    requires o < |heap| && heap[o] == SeqObj(isTuple, items) && d > 0 && ObjKey(o) !in st.memo
    requires SeqReady(heap, reg, items, 0, d - 1, t, st.memo[ObjKey(o) := |st.memo|])
    ensures SaveAny(heap, Obj(o), st).Ok?
    ensures var st' := SaveAny(heap, Obj(o), st).value;
      ResolvableFrom(st'.stack, |st.stack|, reg) && Added(st.memo, st'.memo, {ObjKey(o)} + t)
    decreases d, 0, 0, 0
  {
    var st1 := st.(memo := st.memo[ObjKey(o) := |st.memo|]);
    ItemListTree(heap, reg, isTuple, items, |st.memo|, d - 1, t, st1);
    SeqObjUnfold(heap, o, isTuple, items, st);
    ObjSaved(SaveAny(heap, Obj(o), st).value, st, o, t, reg);
  }

  /** A dict or instance met once: its node holds its values' nodes, none a reference. */
  lemma {:induction false} MapObjTree(heap: Heap, reg: Builder.Registry, o: ObjId, cls: Option<QualName>, entries: Entries, d: nat, t: set<MemoKey>, st: SaveState)
    requires o < |heap| && heap[o] == MapObj(cls, entries) && d > 0 && ObjKey(o) !in st.memo
    requires cls.Some? ==> cls.value in reg
    requires SeqReady(heap, reg, ValuesOf(entries), 0, d - 1, t, st.memo[ObjKey(o) := |st.memo|])
    ensures SaveAny(heap, Obj(o), st).Ok?
    ensures var st' := SaveAny(heap, Obj(o), st).value;
      ResolvableFrom(st'.stack, |st.stack|, reg) && Added(st.memo, st'.memo, {ObjKey(o)} + t)
    decreases d, 0, 0, 0
  {
    var st1 := st.(memo := st.memo[ObjKey(o) := |st.memo|]);
    ItemDictTree(heap, reg, cls, entries, |st.memo|, d - 1, t, st1);
    MapObjUnfold(heap, o, cls, entries, st);
    ObjSaved(SaveAny(heap, Obj(o), st).value, st, o, t, reg);
  }

  /** The node an object's save left, and what the save memoized besides the object. */
  lemma ObjSaved(st': SaveState, st: SaveState, o: ObjId, t: set<MemoKey>, reg: Builder.Registry)
    requires |st'.stack| == |st.stack| + 1 && Resolvable(st'.stack[|st.stack|], reg)
    requires Added(st.memo[ObjKey(o) := |st.memo|], st'.memo, t)
    ensures ResolvableFrom(st'.stack, |st.stack|, reg) && Added(st.memo, st'.memo, {ObjKey(o)} + t)
  {
  }

  /** A first-seen list or tuple is saved by `save_list` or `save_tuple` after it takes the
      next memo index. */
  lemma SeqObjUnfold(heap: Heap, o: ObjId, isTuple: bool, items: seq<Value>, st: SaveState)
    requires Closed(heap) && o < |heap| && heap[o] == SeqObj(isTuple, items) && ObjKey(o) !in st.memo
    ensures forall i :: 0 <= i < |items| ==> ValidIn(heap, items[i])
    ensures SaveAny(heap, Obj(o), st)
      == SaveItemList(heap, isTuple, items, |st.memo|, st.(memo := st.memo[ObjKey(o) := |st.memo|]))
  {
    ClosedHolds(heap, o);
  }

  /** A first-seen dict or instance is saved by `save_dict` or `save_instance` after it
      takes the next memo index. */
  lemma MapObjUnfold(heap: Heap, o: ObjId, cls: Option<QualName>, entries: Entries, st: SaveState)
    requires Closed(heap) && o < |heap| && heap[o] == MapObj(cls, entries) && ObjKey(o) !in st.memo
    ensures forall i :: 0 <= i < |entries| ==> ValidIn(heap, entries[i].1)
    ensures SaveAny(heap, Obj(o), st)
      == SaveItemDict(heap, cls, entries, |st.memo|, st.(memo := st.memo[ObjKey(o) := |st.memo|]))
  {
    ClosedHolds(heap, o);
    match cls {
      case None =>
      case Some(c) =>
    }
  }

  /** The walk from the `i`-th value on splits into the head's walk `a` and the rest's `b`,
      which meets no literal. */
  lemma SeqHead(heap: Heap, reg: Builder.Registry, vs: seq<Value>, i: nat, d: nat, t: set<MemoKey>, m: Memo)
    returns (a: set<MemoKey>, b: set<MemoKey>)
    requires SeqReady(heap, reg, vs, i, d, t, m) && i < |vs|
    ensures ValReady(heap, reg, vs[i], d, a, m) && SeqReady(heap, reg, vs, i + 1, d, b, m)
    ensures t == a + b && a !! b && forall k :: k in b ==> !k.LitKey?
  {
    a := Reach(heap, vs[i], d).value;
    b := ReachSeq(heap, vs, i + 1, d).value;
    ReachSeqNoLit(heap, vs, i + 1, d);
  }

  /** After a save that memoized only literals and members of `a`, a walk disjoint from
      `a` is still unmemoized. */
  lemma ReadyAfter(heap: Heap, reg: Builder.Registry, vs: seq<Value>, i: nat, d: nat, b: set<MemoKey>, m: Memo, m1: Memo, a: set<MemoKey>)
    requires SeqReady(heap, reg, vs, i, d, b, m) && Added(m, m1, a) && a !! b
    requires forall k :: k in b ==> !k.LitKey?
    ensures SeqReady(heap, reg, vs, i, d, b, m1)
  {
  }

  /** Two saves in a row: the nodes each left have no reference, and each memoized only
      literals and identities of its own walk. */
  lemma TreeJoin(st: SaveState, st1: SaveState, st': SaveState, a: set<MemoKey>, b: set<MemoKey>, reg: Builder.Registry)
    requires |st.stack| <= |st1.stack| <= |st'.stack| && st'.stack[..|st1.stack|] == st1.stack
    requires ResolvableFrom(st1.stack, |st.stack|, reg) && ResolvableFrom(st'.stack, |st1.stack|, reg)
    requires Added(st.memo, st1.memo, a) && Added(st1.memo, st'.memo, b)
    ensures ResolvableFrom(st'.stack, |st.stack|, reg) && Added(st.memo, st'.memo, a + b)
  {
    SegJoin(st1.stack, st'.stack, |st.stack|, reg);
  }

  /** Nodes a save left after `lo`, followed by more such nodes. */
  lemma SegJoin(s1: seq<Node>, s': seq<Node>, lo: nat, reg: Builder.Registry)
    requires lo <= |s1| <= |s'| && s'[..|s1|] == s1
    requires ResolvableFrom(s1, lo, reg) && ResolvableFrom(s', |s1|, reg)
    ensures ResolvableFrom(s', lo, reg)
  {
    forall k | lo <= k < |s1|
      ensures Resolvable(s'[k], reg)
    {
      assert s'[k] == s'[..|s1|][k];
    }
  }

  lemma {:induction false} ItemListTree(heap: Heap, reg: Builder.Registry, isTuple: bool, items: seq<Value>, idx: nat, d: nat, t: set<MemoKey>, st: SaveState)
    requires SeqReady(heap, reg, items, 0, d, t, st.memo)
    ensures SaveItemList(heap, isTuple, items, idx, st).Ok?
    ensures var st' := SaveItemList(heap, isTuple, items, idx, st).value;
      Resolvable(st'.stack[|st.stack|], reg) && Added(st.memo, st'.memo, t)
    decreases d, 2, 0, 0
  {
    var st0 := PushContext(Put(st, Fab(SeqNode(isTuple, idx, []))));
    ItemsTree(heap, reg, items, 0, d, t, st0);
    ListFolds(heap, isTuple, items, idx, st);
    SeqNodeResolvable(isTuple, idx, SaveItems(heap, items, 0, st0).value.stack, reg);
  }

  /** `save_list` and `save_tuple` succeed once their items do, and the node they leave
      holds the items' nodes. */
  lemma ListFolds(heap: Heap, isTuple: bool, items: seq<Value>, idx: nat, st: SaveState)
    requires Closed(heap) && (forall i :: 0 <= i < |items| ==> ValidIn(heap, items[i]))
    requires SaveItems(heap, items, 0, PushContext(Put(st, Fab(SeqNode(isTuple, idx, []))))).Ok?
    ensures SaveItemList(heap, isTuple, items, idx, st).Ok?
    ensures var st2 := SaveItems(heap, items, 0, PushContext(Put(st, Fab(SeqNode(isTuple, idx, []))))).value;
      var st' := SaveItemList(heap, isTuple, items, idx, st).value;
      st'.memo == st2.memo && st'.stack[|st.stack|] == Fab(SeqNode(isTuple, idx, st2.stack))
  {
    ListUnfold(heap, isTuple, items, idx, st);
  }

  lemma {:induction false} ItemsTree(heap: Heap, reg: Builder.Registry, items: seq<Value>, i: nat, d: nat, t: set<MemoKey>, st: SaveState)
    requires SeqReady(heap, reg, items, i, d, t, st.memo)
    ensures SaveItems(heap, items, i, st).Ok?
    ensures var st' := SaveItems(heap, items, i, st).value;
      ResolvableFrom(st'.stack, |st.stack|, reg) && Added(st.memo, st'.memo, t)
    decreases d, 1, |items| - i, 2
  {
    if i < |items| {
      ItemsCons(heap, reg, items, i, d, t, st);
    }
  }

  /** The head item, then the rest. */
  lemma {:induction false} ItemsCons(heap: Heap, reg: Builder.Registry, items: seq<Value>, i: nat, d: nat, t: set<MemoKey>, st: SaveState)
    requires SeqReady(heap, reg, items, i, d, t, st.memo) && i < |items|
    ensures SaveItems(heap, items, i, st).Ok?
    ensures var st' := SaveItems(heap, items, i, st).value;
      ResolvableFrom(st'.stack, |st.stack|, reg) && Added(st.memo, st'.memo, t)
    decreases d, 1, |items| - i, 1
  {
    var a, b := ItemsStep(heap, reg, items, i, d, t, st);
    var st1 := SaveAny(heap, items[i], st).value;
    ItemsTree(heap, reg, items, i + 1, d, b, st1);
    TreeJoin(st, st1, SaveItems(heap, items, i + 1, st1).value, a, b, reg);
  }

  /** The head item saves first; what is left of the walk is still unmemoized after it. */
  lemma {:induction false} ItemsStep(heap: Heap, reg: Builder.Registry, items: seq<Value>, i: nat, d: nat, t: set<MemoKey>, st: SaveState)
    returns (a: set<MemoKey>, b: set<MemoKey>)
    requires SeqReady(heap, reg, items, i, d, t, st.memo) && i < |items|
    ensures SaveAny(heap, items[i], st).Ok?
    ensures var st1 := SaveAny(heap, items[i], st).value;
      && |st.stack| <= |st1.stack| && ResolvableFrom(st1.stack, |st.stack|, reg)
      && Added(st.memo, st1.memo, a) && t == a + b && SeqReady(heap, reg, items, i + 1, d, b, st1.memo)
      && SaveItems(heap, items, i + 1, st1) == SaveItems(heap, items, i, st)
    decreases d, 1, |items| - i, 0
  {
    a, b := SeqHead(heap, reg, items, i, d, t, st.memo);
    AnyTree(heap, reg, items[i], d, a, st);
    ItemsHeadSaved(heap, items, i, st);
    ReadyAfter(heap, reg, items, i + 1, d, b, st.memo, SaveAny(heap, items[i], st).value.memo, a);
  }

  /** Once the head item saves, the items from the next one on continue from its state. */
  lemma ItemsHeadSaved(heap: Heap, items: seq<Value>, i: nat, st: SaveState)
    requires Closed(heap) && (forall j :: 0 <= j < |items| ==> ValidIn(heap, items[j])) && i < |items|
    requires SaveAny(heap, items[i], st).Ok?
    ensures SaveItems(heap, items, i + 1, SaveAny(heap, items[i], st).value) == SaveItems(heap, items, i, st)
  {
  }

  lemma {:induction false} ItemDictTree(heap: Heap, reg: Builder.Registry, cls: Option<QualName>, entries: Entries, idx: nat, d: nat, t: set<MemoKey>, st: SaveState)
    requires SeqReady(heap, reg, ValuesOf(entries), 0, d, t, st.memo)
    requires cls.Some? ==> cls.value in reg
    ensures forall i :: 0 <= i < |entries| ==> ValidIn(heap, entries[i].1)
    ensures SaveItemDict(heap, cls, entries, idx, st).Ok?
    ensures var st' := SaveItemDict(heap, cls, entries, idx, st).value;
      Resolvable(st'.stack[|st.stack|], reg) && Added(st.memo, st'.memo, t)
    decreases d, 2, 0, 0
  {
    var st0 := PushContext(Put(st, Fab(MapNode(cls, idx, []))));
    EntriesTree(heap, reg, entries, 0, d, t, st0);
    ItemDictSaves(heap, cls, entries, idx, st);
    DictUnfold(heap, cls, entries, idx, st);
    MapNodeResolvable(cls, idx, SaveEntries(heap, entries, 0, st0).value.stack, reg);
  }

  /** A list or tuple node over nodes with no reference has none either. */
  lemma SeqNodeResolvable(isTuple: bool, idx: nat, ns: seq<Node>, reg: Builder.Registry)
    requires ResolvableFrom(ns, 0, reg)
    ensures Resolvable(Fab(SeqNode(isTuple, idx, ns)), reg)
  {
    ResolvableAll(ns, reg);
    assert Kids(SeqNode(isTuple, idx, ns)) == ns;
  }

  /** A dict or instance node over paired nodes with no reference has none either. */
  lemma MapNodeResolvable(cls: Option<QualName>, idx: nat, acc: seq<Node>, reg: Builder.Registry)
    requires PairUp(acc, KeyOfNode).Ok? && ResolvableFrom(acc, 0, reg)
    requires cls.Some? ==> cls.value in reg
    ensures Resolvable(Fab(MapNode(cls, idx, PairUp(acc, KeyOfNode).value)), reg)
  {
    PairsResolvable(acc, reg);
    assert Kids(MapNode(cls, idx, PairUp(acc, KeyOfNode).value)) == ValuesOf(PairUp(acc, KeyOfNode).value);
  }

  /** Pairing an accumulator of nodes with no reference gives values with none either. */
  lemma PairsResolvable(acc: seq<Node>, reg: Builder.Registry)
    requires PairUp(acc, KeyOfNode).Ok? && ResolvableFrom(acc, 0, reg)
    ensures ResolvableSeq(ValuesOf(PairUp(acc, KeyOfNode).value), reg)
  {
    var pairs := PairUp(acc, KeyOfNode).value;
    PairIntoFrom([], acc, KeyOfNode);
    assert forall x :: x in acc ==> Resolvable(x, reg);
    ResolvableAll(ValuesOf(pairs), reg);
  }

  lemma {:induction false} EntriesTree(heap: Heap, reg: Builder.Registry, entries: Entries, i: nat, d: nat, t: set<MemoKey>, st: SaveState)
    requires SeqReady(heap, reg, ValuesOf(entries), i, d, t, st.memo)
    ensures forall j :: 0 <= j < |entries| ==> ValidIn(heap, entries[j].1)
    ensures SaveEntries(heap, entries, i, st).Ok?
    ensures var st' := SaveEntries(heap, entries, i, st).value;
      ResolvableFrom(st'.stack, |st.stack|, reg) && Added(st.memo, st'.memo, t)
    decreases d, 1, |entries| - i, 1
  {
    EntriesValid(heap, entries);
    if i < |entries| {
      var a, b := EntriesStep(heap, reg, entries, i, d, t, st);
      var st1 := SavePair(heap, entries[i], st).value;
      EntriesTree(heap, reg, entries, i + 1, d, b, st1);
      TreeJoin(st, st1, SaveEntries(heap, entries, i + 1, st1).value, a, b, reg);
    }
  }

  /** The values of a field mapping are valid when its entries' values are. */
  lemma EntriesValid(heap: Heap, entries: Entries)
    requires forall j :: 0 <= j < |ValuesOf(entries)| ==> ValidIn(heap, ValuesOf(entries)[j])
    ensures forall j :: 0 <= j < |entries| ==> ValidIn(heap, entries[j].1)
  {
    forall j | 0 <= j < |entries|
      ensures ValidIn(heap, entries[j].1)
    {
      assert ValuesOf(entries)[j] == entries[j].1;
    }
  }

  /** The head entry saves first; what is left of the walk is still unmemoized after it. */
  lemma {:induction false} EntriesStep(heap: Heap, reg: Builder.Registry, entries: Entries, i: nat, d: nat, t: set<MemoKey>, st: SaveState)
    returns (a: set<MemoKey>, b: set<MemoKey>)
    requires SeqReady(heap, reg, ValuesOf(entries), i, d, t, st.memo) && i < |entries|
    requires forall j :: 0 <= j < |entries| ==> ValidIn(heap, entries[j].1)
    ensures SavePair(heap, entries[i], st).Ok?
    ensures var st1 := SavePair(heap, entries[i], st).value;
      && |st.stack| <= |st1.stack| && ResolvableFrom(st1.stack, |st.stack|, reg)
      && Added(st.memo, st1.memo, a) && t == a + b && SeqReady(heap, reg, ValuesOf(entries), i + 1, d, b, st1.memo)
      && SaveEntries(heap, entries, i + 1, st1) == SaveEntries(heap, entries, i, st)
    decreases d, 1, |entries| - i, 0
  {
    a, b := SeqHead(heap, reg, ValuesOf(entries), i, d, t, st.memo);
    assert ValuesOf(entries)[i] == entries[i].1;
    PairTree(heap, reg, entries[i], d, a, st);
    EntriesHeadSaved(heap, entries, i, st);
    ReadyAfter(heap, reg, ValuesOf(entries), i + 1, d, b, st.memo, SavePair(heap, entries[i], st).value.memo, a);
  }

  /** Once the head entry saves, the entries from the next one on continue from its state. */
  lemma EntriesHeadSaved(heap: Heap, entries: Entries, i: nat, st: SaveState)
    requires Closed(heap) && (forall j :: 0 <= j < |entries| ==> ValidIn(heap, entries[j].1)) && i < |entries|
    requires SavePair(heap, entries[i], st).Ok?
    ensures SaveEntries(heap, entries, i + 1, SavePair(heap, entries[i], st).value) == SaveEntries(heap, entries, i, st)
  {
  }

  lemma {:induction false} PairTree(heap: Heap, reg: Builder.Registry, e: (Literal, Value), d: nat, a: set<MemoKey>, st: SaveState)
    requires ValReady(heap, reg, e.1, d, a, st.memo)
    ensures SavePair(heap, e, st).Ok?
    ensures var st' := SavePair(heap, e, st).value;
      |st.stack| <= |st'.stack| && ResolvableFrom(st'.stack, |st.stack|, reg) && Added(st.memo, st'.memo, a)
    decreases d, 0, 3, 0
  {
    var st1 := SaveAny(heap, Lit(e.0), st).value;
    ReachNoLit(heap, e.1, d);
    AnyTree(heap, reg, e.1, d, a, st1);
    PairSaved(heap, e, st, reg);
  }

  /** A pair's save is its key's bare node followed by its value's save. */
  lemma PairSaved(heap: Heap, e: (Literal, Value), st: SaveState, reg: Builder.Registry)
    requires Closed(heap) && ValidIn(heap, e.1)
    requires var st1 := SaveAny(heap, Lit(e.0), st).value;
      SaveAny(heap, e.1, st1).Ok? && ResolvableFrom(SaveAny(heap, e.1, st1).value.stack, |st1.stack|, reg)
    ensures SavePair(heap, e, st).Ok?
    ensures var st1 := SaveAny(heap, Lit(e.0), st).value;
      && SavePair(heap, e, st).value == SaveAny(heap, e.1, st1).value
      && ResolvableFrom(SavePair(heap, e, st).value.stack, |st.stack|, reg)
  {
    var st1 := SaveAny(heap, Lit(e.0), st).value;
    var st' := SavePair(heap, e, st).value;
    assert st'.stack[|st.stack|] == Bare(e.0);
    SegJoin(st1.stack, st'.stack, |st.stack|, reg);
  }
}
