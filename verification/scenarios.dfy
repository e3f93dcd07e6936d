/** The save/load scenarios of the integration tests, and the shapes loading rejects. */
module Scenarios {
  import opened Results
  import opened Values
  import opened Nodes
  import Serializer
  import opened Builder
  import SaverProofs
  import BuilderProofs
  import Decoding

  /** Item values that are all scalars. */
  predicate AllLits(items: seq<Value>) {
    forall j :: 0 <= j < |items| ==> items[j].Lit?
  }

  /** The bare nodes of scalar items, from the `i`-th on. */
  function BareFrom(items: seq<Value>, i: nat): (r: seq<Node>)
    requires AllLits(items) && i <= |items|
    ensures |r| == |items| - i && forall k :: 0 <= k < |r| ==> r[k] == Bare(items[i + k].lit)
    decreases |items| - i
  {
    if i == |items| then [] else [Bare(items[i].lit)] + BareFrom(items, i + 1)
  }

  /** `m'` registers no object or class beyond those of `m`, at the same indices. */
  ghost predicate NoNewObjects(m: Serializer.Memo, m': Serializer.Memo) {
    forall k :: k in m' && !k.LitKey? ==> k in m && m'[k] == m[k]
  }

  lemma NoNewObjectsTrans(m1: Serializer.Memo, m2: Serializer.Memo, m3: Serializer.Memo)
    requires NoNewObjects(m1, m2) && NoNewObjects(m2, m3)
    ensures NoNewObjects(m1, m3)
  {
  }

  lemma ConsAssoc<T>(a: seq<T>, x: T, b: seq<T>)
    ensures a + [x] + b == a + ([x] + b)
  {
  }

  /** Saving scalar items puts one bare node per item, in order, and registers no object
      or class. */
  lemma {:induction false} SaveLits(heap: Heap, items: seq<Value>, i: nat, st: Serializer.SaveState)
    requires Closed(heap) && AllLits(items) && i <= |items|
    ensures LitsSaved(heap, items, i, st)
    decreases |items| - i
  {
    if i < |items| {
      SaveLits(heap, items, i + 1, LitStep(st, items[i].lit));
      SaveLitsCons(heap, items, i, st);
    } else {
      assert st.stack + BareFrom(items, i) == st.stack;
    }
  }

  /** What saving scalar items from the `i`-th on leaves: their bare nodes, in order, after
      the accumulator's own, and no object or class registered. */
  ghost predicate LitsSaved(heap: Heap, items: seq<Value>, i: nat, st: Serializer.SaveState)
    requires Closed(heap) && AllLits(items) && i <= |items|
  {
    var r := Serializer.SaveItems(heap, items, i, st);
    && r.Ok? && r.value.stack == st.stack + BareFrom(items, i) && r.value.metaStack == st.metaStack
    && NoNewObjects(st.memo, r.value.memo)
  }

  /** The state `save_any` leaves after a scalar: its bare node put, its slot re-taken. */
  function LitStep(st: Serializer.SaveState, l: Literal): Serializer.SaveState {
    Serializer.SaveState(st.memo[Serializer.LitKey(l) := |st.memo|], st.stack + [Bare(l)], st.metaStack)
  }

  lemma SaveLitsCons(heap: Heap, items: seq<Value>, i: nat, st: Serializer.SaveState)
    requires Closed(heap) && AllLits(items) && i < |items|
    requires LitsSaved(heap, items, i + 1, LitStep(st, items[i].lit))
    ensures LitsSaved(heap, items, i, st)
  {
    var st1 := LitStep(st, items[i].lit);
    assert Serializer.SaveAny(heap, items[i], st) == Ok(st1);
    assert Serializer.SaveItems(heap, items, i, st) == Serializer.SaveItems(heap, items, i + 1, st1);
    var r := Serializer.SaveItems(heap, items, i + 1, st1);
    NoNewObjectsTrans(st.memo, st1.memo, r.value.memo);
    ConsAssoc(st.stack, Bare(items[i].lit), BareFrom(items, i + 1));
  }

  /** The scalars of bare nodes, from the `i`-th on. */
  function LitsFrom(ns: seq<Node>, i: nat): (r: seq<Value>)
    requires (forall j :: 0 <= j < |ns| ==> ns[j].Bare?) && i <= |ns|
    ensures |r| == |ns| - i && forall k :: 0 <= k < |r| ==> r[k] == Lit(ns[i + k].lit)
    decreases |ns| - i
  {
    if i == |ns| then [] else [Lit(ns[i].lit)] + LitsFrom(ns, i + 1)
  }

  /** Loading bare nodes pushes their scalars in order and touches nothing else. */
  lemma {:induction false} LoadBares(reg: Registry, items: seq<Node>, i: nat, st: BuildState)
    requires i <= |items| && forall j :: 0 <= j < |items| ==> items[j].Bare?
    ensures LoadItems(reg, items, i, st) == Ok(st.(stack := st.stack + LitsFrom(items, i)))
    decreases |items| - i
  {
    if i < |items| {
      var st1 := Builder.Put(st, Lit(items[i].lit));
      assert LoadAny(reg, items[i], st) == Ok(st1);
      LoadBares(reg, items, i + 1, st1);
      ConsAssoc(st.stack, Lit(items[i].lit), LitsFrom(items, i + 1));
    } else {
      assert st.stack + LitsFrom(items, i) == st.stack;
    }
  }

  /** A list or tuple of scalars is saved as one node of its kind, memo id 0, holding the
      bare scalars in order. */
  lemma {:induction false} SaveScalarSeq(heap: Heap, o: ObjId)
    requires Closed(heap) && o < |heap| && (heap[o].ListObj? || heap[o].TupleObj?) && AllLits(heap[o].items)
    ensures Serializer.Save(heap, Obj(o)) == Ok(Fab(Serializer.SeqNode(heap[o].TupleObj?, 0, BareFrom(heap[o].items, 0))))
  {
    var items := heap[o].items;
    var t := heap[o].TupleObj?;
    var st0 := Serializer.Fresh();
    var st1 := st0.(memo := st0.memo[Serializer.ObjKey(o) := 0]);
    assert Serializer.SaveAny(heap, Obj(o), st0) == Serializer.SaveItemList(heap, t, items, 0, st1);
    var pushed := Serializer.PushContext(Serializer.Put(st1, Fab(Serializer.SeqNode(t, 0, []))));
    SaveLits(heap, items, 0, pushed);
    var st2 := Serializer.SaveItems(heap, items, 0, pushed).value;
    assert st2.stack == BareFrom(items, 0);
    assert Serializer.PopContext(st2).stack == [Fab(Serializer.SeqNode(t, 0, []))];
  }

  /** The scalars of bare nodes. */
  function LitsOf(ns: seq<Node>): (r: seq<Value>)
    requires forall j :: 0 <= j < |ns| ==> ns[j].Bare?
    ensures |r| == |ns| && forall k :: 0 <= k < |r| ==> r[k] == Lit(ns[k].lit)
  {
    LitsFrom(ns, 0)
  }

  /** A list node of bare scalars loads as one new list holding the scalars, allocated
      after everything already on the heap. */
  lemma {:induction false} LoadScalarList(reg: Registry, world: Heap, m: nat, ns: seq<Node>)
    requires forall j :: 0 <= j < |ns| ==> ns[j].Bare?
    ensures Load(reg, world, Fab(ListNode(m, ns))) == Ok((world + [ListObj(LitsOf(ns))], Obj(|world|)))
  {
    var info := ListNode(m, ns);
    var st1 := LoadPlaceholder(info, Start(world)).value;
    assert st1.memo[m] == Obj(|world|) && st1.heap == world + [ListObj([])];
    FillScalarList(reg, m, ns, st1);
    BuilderProofs.FillJob(reg, info, st1);
    ReplaceLast(world, ListObj([]), ListObj(LitsOf(ns)));
    LoadRootPlaceholder(reg, world, info, ListObj(LitsOf(ns)));
  }

  /** The fill job of a list node of bare scalars extends its empty placeholder with the
      scalars, in order, and changes nothing else. */
  lemma {:induction false} FillScalarList(reg: Registry, m: nat, ns: seq<Node>, st: BuildState)
    requires forall j :: 0 <= j < |ns| ==> ns[j].Bare?
    requires m in st.memo && st.memo[m].Obj? && st.memo[m].id < |st.heap| && st.heap[st.memo[m].id] == ListObj([])
    ensures FiniList(reg, ListNode(m, ns), st) == Ok(st.(heap := st.heap[st.memo[m].id := ListObj(LitsOf(ns))]))
  {
    var info := ListNode(m, ns);
    var a := st.memo[m].id;
    var pushed := PushJobs(Builder.PushContext(st));
    LoadBares(reg, ns, 0, pushed);
    assert ns[0..] == ns;
    var st2 := LoadItems(reg, ns, 0, pushed).value;
    assert st2.stack == LitsOf(ns);
    assert LoadKids(reg, info, pushed) == Ok(st2);
    assert DoJobs(reg, st2) == Ok(st2);
    assert LoadScoped(reg, info, st) == Ok(PopJobs(st2));
    assert Target(info, st) == Ok(Obj(a));
    assert [] + LitsOf(ns) == LitsOf(ns);
    assert Builder.PopContext(PopJobs(st2).(heap := st.heap[a := ListObj(LitsOf(ns))])) == st.(heap := st.heap[a := ListObj(LitsOf(ns))]);
  }

  /** A tuple node of bare scalars loads as one new tuple holding the scalars: its finish
      job heads its own queue and runs once the items are on the accumulator. */
  lemma {:induction false} LoadScalarTuple(reg: Registry, world: Heap, m: nat, ns: seq<Node>)
    requires forall j :: 0 <= j < |ns| ==> ns[j].Bare?
    ensures Load(reg, world, Fab(TupleNode(m, ns))) == Ok((world + [TupleObj(LitsOf(ns))], Obj(|world|)))
  {
    var info := TupleNode(m, ns);
    var st0 := Start(world);
    assert LoadAny(reg, Fab(info), st0) == LoadFab(reg, info, st0) == LoadTuple(reg, info, st0);
    var st3 := Builder.PushContext(PushJobs(st0).(jobs := [FiniTuple(m)]));
    LoadBares(reg, ns, 0, st3);
    assert ns[0..] == ns;
    var st4 := LoadItems(reg, ns, 0, st3).value;
    assert st4.stack == LitsOf(ns) && st4.jobs == [FiniTuple(m)];
    var st5 := FiniTupleJob(m, st4);
    assert st5.heap == world + [TupleObj(LitsOf(ns))] && st5.stack == [Obj(|world|)] && st5.metaStack == [];
    assert RunJobs(reg, st4.jobs, 0, st4) == Ok(st5);
    assert DoJobs(reg, st4) == Ok(st5.(jobs := []));
    var st6 := PopJobs(st5.(jobs := []));
    assert st6.jobs == [] && st6.metaJobs == [];
    assert LoadAny(reg, Fab(info), st0) == Ok(st6);
    assert LoadState(reg, world, Fab(info)) == Ok(st6);
  }

  /** `[1, 2.3, 2.3, 1]` and `(1, 2, 3.3, 4)`: a list or tuple of scalars saved and loaded
      back comes out as a new object, after everything on the heap, with the same kind and
      the same items. */
  lemma {:induction false} ScalarSeqRoundTrip(reg: Registry, heap: Heap, world: Heap, o: ObjId)
    requires Closed(heap) && o < |heap| && (heap[o].ListObj? || heap[o].TupleObj?) && AllLits(heap[o].items)
    ensures Serializer.Save(heap, Obj(o)).Ok?
    ensures Load(reg, world, Serializer.Save(heap, Obj(o)).value) == Ok((world + [heap[o]], Obj(|world|)))
  {
    var items := heap[o].items;
    SaveScalarSeq(heap, o);
    var ns := BareFrom(items, 0);
    assert LitsOf(ns) == items;
    if heap[o].TupleObj? {
      LoadScalarTuple(reg, world, 0, ns);
    } else {
      LoadScalarList(reg, world, 0, ns);
    }
  }

  /** Entries whose values are all scalars. */
  predicate ScalarEntries(es: Entries) {
    forall j :: 0 <= j < |es| ==> es[j].1.Lit?
  }

  /** The saved form of scalar entries, from the `i`-th on: each value a bare node. */
  function BareEntriesFrom(es: Entries, i: nat): (r: seq<(Literal, Node)>)
    requires ScalarEntries(es) && i <= |es|
    ensures |r| == |es| - i && forall k :: 0 <= k < |r| ==> r[k] == (es[i + k].0, Bare(es[i + k].1.lit))
    decreases |es| - i
  {
    if i == |es| then [] else [(es[i].0, Bare(es[i].1.lit))] + BareEntriesFrom(es, i + 1)
  }

  /** The loaded form of bare entries, from the `i`-th on: each value its scalar. */
  function LitEntriesFrom(es: seq<(Literal, Node)>, i: nat): (r: Entries)
    requires (forall j :: 0 <= j < |es| ==> es[j].1.Bare?) && i <= |es|
    ensures |r| == |es| - i && forall k :: 0 <= k < |r| ==> r[k] == (es[i + k].0, Lit(es[i + k].1.lit))
    decreases |es| - i
  {
    if i == |es| then [] else [(es[i].0, Lit(es[i].1.lit))] + LitEntriesFrom(es, i + 1)
  }

  /** Saving scalar entries puts each key's bare node, then its value's, in order. */
  lemma {:induction false} SaveScalarEntries(heap: Heap, es: Entries, i: nat, st: Serializer.SaveState)
    requires Closed(heap) && ScalarEntries(es) && i <= |es|
    ensures var r := Serializer.SaveEntries(heap, es, i, st);
      && r.Ok? && r.value.stack == st.stack + Interleave(BareEntriesFrom(es, i), SaverProofs.BareOf)
      && r.value.metaStack == st.metaStack
    decreases |es| - i
  {
    if i < |es| {
      var st1 := SaveScalarPair(heap, es, i, st);
      SaveScalarEntries(heap, es, i + 1, st1);
      var r := Serializer.SaveEntries(heap, es, i + 1, st1);
      assert r.value.stack == st.stack + Interleave(BareEntriesFrom(es, i), SaverProofs.BareOf) by {
        var pair := [Bare(es[i].0), Bare(es[i].1.lit)];
        assert Interleave(BareEntriesFrom(es, i), SaverProofs.BareOf) == pair + Interleave(BareEntriesFrom(es, i + 1), SaverProofs.BareOf);
        PairAssoc(st.stack, pair, Interleave(BareEntriesFrom(es, i + 1), SaverProofs.BareOf));
      }
    } else {
      assert st.stack + Interleave(BareEntriesFrom(es, i), SaverProofs.BareOf) == st.stack;
    }
  }

  lemma PairAssoc<T>(a: seq<T>, b: seq<T>, c: seq<T>)
    ensures a + b + c == a + (b + c)
  {
  }

  /** One scalar entry: its key's bare node and its value's are put. */
  lemma SaveScalarPair(heap: Heap, es: Entries, i: nat, st: Serializer.SaveState) returns (st1: Serializer.SaveState)
    requires Closed(heap) && ScalarEntries(es) && i < |es|
    ensures st1.stack == st.stack + [Bare(es[i].0), Bare(es[i].1.lit)] && st1.metaStack == st.metaStack
    ensures Serializer.SaveEntries(heap, es, i, st) == Serializer.SaveEntries(heap, es, i + 1, st1)
  {
    var k := es[i].0;
    var v := es[i].1.lit;
    var sk := Serializer.SaveState(st.memo[Serializer.LitKey(k) := |st.memo|], st.stack + [Bare(k)], st.metaStack);
    assert Serializer.SaveAny(heap, Lit(k), st) == Ok(sk);
    st1 := Serializer.SaveState(sk.memo[Serializer.LitKey(v) := |sk.memo|], sk.stack + [Bare(v)], st.metaStack);
    assert Serializer.SaveAny(heap, es[i].1, sk) == Ok(st1);
    assert Serializer.SavePair(heap, es[i], st) == Ok(st1);
  }

  /** Loading bare entries pushes each key, then its value's scalar, and touches nothing else. */
  lemma {:induction false} LoadBareEntries(reg: Registry, es: seq<(Literal, Node)>, i: nat, st: BuildState)
    requires (forall j :: 0 <= j < |es| ==> es[j].1.Bare?) && i <= |es|
    ensures LoadEntries(reg, es, i, st) == Ok(st.(stack := st.stack + Interleave(LitEntriesFrom(es, i), Decoding.LitOf)))
    decreases |es| - i
  {
    if i < |es| {
      var st1 := Builder.Put(st, Lit(es[i].0));
      var st2 := Builder.Put(st1, Lit(es[i].1.lit));
      assert LoadAny(reg, es[i].1, st1) == Ok(st2);
      LoadBareEntries(reg, es, i + 1, st2);
      var pair := [Lit(es[i].0), Lit(es[i].1.lit)];
      assert Interleave(LitEntriesFrom(es, i), Decoding.LitOf) == pair + Interleave(LitEntriesFrom(es, i + 1), Decoding.LitOf);
      PairAssoc(st.stack, pair, Interleave(LitEntriesFrom(es, i + 1), Decoding.LitOf));
      assert st2.stack == st.stack + pair;
      assert LoadEntries(reg, es, i, st) == LoadEntries(reg, es, i + 1, st2);
    } else {
      assert st.stack + Interleave(LitEntriesFrom(es, i), Decoding.LitOf) == st.stack;
    }
  }

  /** A dict of scalars, met first under memo id `idx`, puts one dict node holding each key
      with its value's bare node, in insertion order. */
  lemma {:induction false} SaveScalarItemDict(heap: Heap, entries: Entries, idx: nat, st: Serializer.SaveState)
    requires Closed(heap) && ScalarEntries(entries) && DistinctKeys(entries)
    ensures var r := Serializer.SaveItemDict(heap, None, entries, idx, st);
      r.Ok? && r.value.stack == st.stack + [Fab(DictNode(idx, BareEntriesFrom(entries, 0)))]
  {
    var pushed := Serializer.PushContext(Serializer.Put(st, Fab(DictNode(idx, []))));
    SaveScalarEntries(heap, entries, 0, pushed);
    var st2 := Serializer.SaveEntries(heap, entries, 0, pushed).value;
    var es := BareEntriesFrom(entries, 0);
    assert st2.stack == Interleave(es, SaverProofs.BareOf);
    PairUpInterleave(es, SaverProofs.BareOf, Serializer.KeyOfNode);
    assert DistinctKeys([] + es) by {
      assert forall j :: 0 <= j < |es| ==> es[j].0 == entries[j].0;
    }
    AssignAllFresh([], es);
    assert [] + es == es;
    assert PairUp(st2.stack, Serializer.KeyOfNode) == Ok(es);
    assert Serializer.SaveEntries(heap, entries, 0, pushed) == Ok(st2);
    var st3 := Serializer.PopContext(st2);
    assert st3.stack == st.stack + [Fab(DictNode(idx, []))];
    assert Serializer.SaveItemDict(heap, None, entries, idx, st) == Ok(st3.(stack := st3.stack[|st.stack| := Fab(DictNode(idx, es))]));
    ReplaceLast(st.stack, Fab(DictNode(idx, [])), Fab(DictNode(idx, es)));
  }

  lemma ReplaceLast<T>(a: seq<T>, y: T, x: T)
    ensures (a + [y])[|a| := x] == a + [x]
  {
  }

  /** A dict of scalars is saved as one dict node, memo id 0, holding each key with its
      value's bare node, in insertion order. */
  lemma {:induction false} SaveScalarDict(heap: Heap, o: ObjId)
    requires WellFormed(heap) && o < |heap| && heap[o].DictObj? && ScalarEntries(heap[o].entries)
    ensures Serializer.Save(heap, Obj(o)) == Ok(Fab(DictNode(0, BareEntriesFrom(heap[o].entries, 0))))
  {
    var entries := heap[o].entries;
    var st0 := Serializer.Fresh();
    var st1 := st0.(memo := st0.memo[Serializer.ObjKey(o) := 0]);
    assert Serializer.SaveAny(heap, Obj(o), st0) == Serializer.SaveItemDict(heap, None, entries, 0, st1);
    SaveScalarItemDict(heap, entries, 0, st1);
  }

  /** Pairing the interleaved accumulator of entries with distinct keys into an empty
      dict gives back those entries, in order. */
  lemma {:induction false} AssignInterleaved(info: FabInfo, L: Entries)
    requires info.DictNode? && DistinctKeys(L)
    ensures |Interleave(L, Decoding.LitOf)| % 2 == 0
    ensures AssignPairs(info, DictObj([]), Interleave(L, Decoding.LitOf)) == Ok(DictObj(L))
  {
    Even(|L|);
    PairsFresh(L);
  }

  /** Pairing the interleaved keys and values of distinct-keyed entries from nothing gives
      the entries back. */
  lemma PairsFresh(L: Entries)
    requires DistinctKeys(L)
    ensures PairInto([], Interleave(L, Decoding.LitOf), KeyOfValue) == Ok(L)
  {
    PairIntoInterleave([], L, Decoding.LitOf, KeyOfValue);
    assert [] + L == L;
    AssignAllFresh([], L);
  }

  lemma Even(n: nat)
    ensures (2 * n) % 2 == 0
  {
  }

  /** Loading the entries of a dict node of bare scalars in a context of their own leaves
      exactly the interleaved keys and scalars on the child accumulator. */
  lemma {:induction false} ScopedBareEntries(reg: Registry, m: nat, es: seq<(Literal, Node)>, st: BuildState)
    requires forall j :: 0 <= j < |es| ==> es[j].1.Bare?
    ensures LoadScoped(reg, DictNode(m, es), st)
      == Ok(st.(stack := Interleave(LitEntriesFrom(es, 0), Decoding.LitOf), metaStack := st.metaStack + [st.stack]))
  {
    var info := DictNode(m, es);
    var pushed := PushJobs(Builder.PushContext(st));
    LoadBareEntries(reg, es, 0, pushed);
    var st2 := LoadEntries(reg, es, 0, pushed).value;
    assert LoadKids(reg, info, pushed) == Ok(st2);
    assert DoJobs(reg, st2) == Ok(st2);
  }

  /** The fill job of a dict node of bare scalars with distinct keys sets its empty
      placeholder to the scalars under their keys, in order, and changes nothing else. */
  lemma {:induction false} FillScalarDict(reg: Registry, m: nat, es: seq<(Literal, Node)>, st: BuildState)
    requires (forall j :: 0 <= j < |es| ==> es[j].1.Bare?) && DistinctKeys(es)
    requires m in st.memo && st.memo[m].Obj? && st.memo[m].id < |st.heap| && st.heap[st.memo[m].id] == DictObj([])
    ensures FiniMapping(reg, DictNode(m, es), st) == Ok(st.(heap := st.heap[st.memo[m].id := DictObj(LitEntriesFrom(es, 0))]))
  {
    var info := DictNode(m, es);
    var a := st.memo[m].id;
    var L := LitEntriesFrom(es, 0);
    ScopedBareEntries(reg, m, es, st);
    var st1 := LoadScoped(reg, info, st).value;
    assert Target(info, st) == Ok(Obj(a));
    assert st1.heap[a] == DictObj([]) && st1.stack == Interleave(L, Decoding.LitOf);
    assert DistinctKeys(L) by {
      assert forall j :: 0 <= j < |L| ==> L[j].0 == es[j].0;
    }
    AssignInterleaved(info, L);
    BuilderProofs.FiniMappingFills(reg, info, st, a, DictObj(L));
  }

  /** A dict node of bare scalars with distinct keys loads as one new dict holding the
      scalars under their keys, in order. */
  lemma {:induction false} LoadScalarDict(reg: Registry, world: Heap, m: nat, es: seq<(Literal, Node)>)
    requires (forall j :: 0 <= j < |es| ==> es[j].1.Bare?) && DistinctKeys(es)
    ensures Load(reg, world, Fab(DictNode(m, es))) == Ok((world + [DictObj(LitEntriesFrom(es, 0))], Obj(|world|)))
  {
    var info := DictNode(m, es);
    var st1 := LoadPlaceholder(info, Start(world)).value;
    assert st1.memo[m] == Obj(|world|) && st1.heap == world + [DictObj([])];
    FillScalarDict(reg, m, es, st1);
    BuilderProofs.FillJob(reg, info, st1);
    ReplaceLast(world, DictObj([]), DictObj(LitEntriesFrom(es, 0)));
    LoadRootPlaceholder(reg, world, info, DictObj(LitEntriesFrom(es, 0)));
  }

  /** A root list or dict whose fill turns its placeholder into `obj`, touching nothing
      else, loads as `obj`, allocated after everything already on the heap. */
  lemma LoadRootPlaceholder(reg: Registry, world: Heap, info: FabInfo, obj: HeapObj)
    requires info.ListNode? || info.DictNode?
    requires var st1 := LoadPlaceholder(info, Start(world)).value;
      RunJob(reg, Fill(info), st1) == Ok(st1.(heap := world + [obj]))
    ensures Load(reg, world, Fab(info)) == Ok((world + [obj], Obj(|world|)))
  {
    var st0 := Start(world);
    var st1 := LoadPlaceholder(info, st0).value;
    assert LoadAny(reg, Fab(info), st0) == LoadFab(reg, info, st0) == Ok(st1);
    assert st1.jobs == [Fill(info)] && st1.stack == [Obj(|world|)];
    var st3 := st1.(heap := world + [obj]);
    assert RunJobs(reg, st1.jobs, 1, st3) == Ok(st3);
    assert RunJobs(reg, st1.jobs, 0, st1) == Ok(st3);
    assert Drain(reg, st3.(jobs := [])) == Ok(st3.(jobs := []));
    assert LoadState(reg, world, Fab(info)) == Ok(st3.(jobs := []));
  }

  /** `{"a": 1, "b": 2, "c": 1.1, "d": 1.1}`: a dict of scalars saved and loaded back comes
      out as a new dict, after everything on the heap, with the same entries in order. */
  lemma {:induction false} ScalarDictRoundTrip(reg: Registry, heap: Heap, world: Heap, o: ObjId)
    requires WellFormed(heap) && o < |heap| && heap[o].DictObj? && ScalarEntries(heap[o].entries)
    ensures Serializer.Save(heap, Obj(o)).Ok?
    ensures Load(reg, world, Serializer.Save(heap, Obj(o)).value) == Ok((world + [heap[o]], Obj(|world|)))
  {
    var entries := heap[o].entries;
    SaveScalarDict(heap, o);
    var es := BareEntriesFrom(entries, 0);
    assert DistinctKeys(es) by {
      assert forall j :: 0 <= j < |es| ==> es[j].0 == entries[j].0;
    }
    LoadScalarDict(reg, world, 0, es);
    assert LitEntriesFrom(es, 0) == entries;
  }
}
