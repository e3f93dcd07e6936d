/** Object graphs with shared and cyclic parts, saved and loaded step by step: the recursive
    and nested tuples of the integration tests, and the shapes whose saved form does not load. */
module GraphScenarios {
  import opened Results
  import opened Values
  import opened Nodes
  import Serializer
  import opened Builder
  import Scenarios
  import BuilderProofs

  const I1 := Lit(Int(1))
  const I2 := Lit(Int(2))
  const I3 := Lit(Int(3))
  const I4 := Lit(Int(4))
  const B1 := Bare(Int(1))
  const B2 := Bare(Int(2))
  const B3 := Bare(Int(3))
  const B4 := Bare(Int(4))

  // ---------------------------------------------------------------- save steps

  predicate ItemsIn(heap: Heap, items: seq<Value>) {
    forall j :: 0 <= j < |items| ==> ValidIn(heap, items[j])
  }

  /** A scalar item puts its bare node and re-takes its memo slot. */
  lemma SaveLitItem(heap: Heap, items: seq<Value>, i: nat, st: Serializer.SaveState) returns (st1: Serializer.SaveState)
    requires Closed(heap) && ItemsIn(heap, items) && i < |items| && items[i].Lit?
    ensures st1 == Serializer.SaveState(st.memo[Serializer.LitKey(items[i].lit) := |st.memo|], st.stack + [Bare(items[i].lit)], st.metaStack)
    ensures Serializer.SaveItems(heap, items, i, st) == Serializer.SaveItems(heap, items, i + 1, st1)
  {
    st1 := Serializer.SaveState(st.memo[Serializer.LitKey(items[i].lit) := |st.memo|], st.stack + [Bare(items[i].lit)], st.metaStack);
    assert Serializer.SaveAny(heap, items[i], st) == Ok(st1);
  }

  /** An object item already in the memo puts a reference to its index. */
  lemma SaveSeenItem(heap: Heap, items: seq<Value>, i: nat, st: Serializer.SaveState) returns (st1: Serializer.SaveState)
    requires Closed(heap) && ItemsIn(heap, items) && i < |items| && items[i].Obj? && Serializer.ObjKey(items[i].id) in st.memo
    ensures st1 == st.(stack := st.stack + [Fab(Reference(st.memo[Serializer.ObjKey(items[i].id)]))])
    ensures Serializer.SaveItems(heap, items, i, st) == Serializer.SaveItems(heap, items, i + 1, st1)
  {
    st1 := st.(stack := st.stack + [Fab(Reference(st.memo[Serializer.ObjKey(items[i].id)]))]);
  }

  /** Any other item: the loop goes on from whatever saving it leaves. */
  lemma SaveNextItem(heap: Heap, items: seq<Value>, i: nat, st: Serializer.SaveState, st1: Serializer.SaveState)
    requires Closed(heap) && ItemsIn(heap, items) && i < |items| && Serializer.SaveAny(heap, items[i], st) == Ok(st1)
    ensures Serializer.SaveItems(heap, items, i, st) == Serializer.SaveItems(heap, items, i + 1, st1)
  {
  }

  /** The context a first-seen list or tuple saves its items in. */
  function ItemContext(heap: Heap, o: ObjId, st: Serializer.SaveState): Serializer.SaveState
    requires o < |heap| && (heap[o].ListObj? || heap[o].TupleObj?)
  {
    var idx := |st.memo|;
    Serializer.PushContext(Serializer.Put(st.(memo := st.memo[Serializer.ObjKey(o) := idx]), Fab(Serializer.SeqNode(heap[o].TupleObj?, idx, []))))
  }

  /** A first-seen list or tuple puts one node holding what its items saved to. */
  lemma SaveFreshSeq(heap: Heap, o: ObjId, st: Serializer.SaveState, st2: Serializer.SaveState)
    requires Closed(heap) && o < |heap| && (heap[o].ListObj? || heap[o].TupleObj?) && Serializer.ObjKey(o) !in st.memo
    requires ItemsIn(heap, heap[o].items)
    requires Serializer.SaveItems(heap, heap[o].items, 0, ItemContext(heap, o, st)) == Ok(st2)
    ensures Serializer.SaveAny(heap, Obj(o), st)
      == Ok(Serializer.SaveState(st2.memo, st.stack + [Fab(Serializer.SeqNode(heap[o].TupleObj?, |st.memo|, st2.stack))], st.metaStack))
  {
    var t := heap[o].TupleObj?;
    var idx := |st.memo|;
    ClosedHolds(heap, o);
    var st1 := st.(memo := st.memo[Serializer.ObjKey(o) := idx]);
    assert Serializer.SaveAny(heap, Obj(o), st) == Serializer.SaveItemList(heap, t, heap[o].items, idx, st1);
    var st3 := Serializer.PopContext(st2);
    assert st3.stack == st.stack + [Fab(Serializer.SeqNode(t, idx, []))] && st3.metaStack == st.metaStack;
    Scenarios.ReplaceLast(st.stack, Fab(Serializer.SeqNode(t, idx, [])), Fab(Serializer.SeqNode(t, idx, st2.stack)));
  }

  // ---------------------------------------------------------------- load steps

  /** A bare item pushes its scalar. */
  lemma LoadBareItem(reg: Registry, items: seq<Node>, i: nat, st: BuildState)
    requires i < |items| && items[i].Bare?
    ensures LoadItems(reg, items, i, st) == LoadItems(reg, items, i + 1, Builder.Put(st, Lit(items[i].lit)))
  {
    assert LoadAny(reg, items[i], st) == Ok(Builder.Put(st, Lit(items[i].lit)));
  }

  /** A reference item pushes the registered value, or fails when nothing is registered. */
  lemma LoadRefItem(reg: Registry, items: seq<Node>, i: nat, st: BuildState)
    requires i < |items| && items[i].Fab? && items[i].info.Reference?
    ensures var m := items[i].info.memoId;
      LoadItems(reg, items, i, st)
      == if m in st.memo then LoadItems(reg, items, i + 1, Builder.Put(st, st.memo[m])) else Err(UnresolvedReference(m))
  {
    var m := items[i].info.memoId;
    assert LoadAny(reg, items[i], st) == LoadReference(m, st);
  }

  /** A list or dict item allocates its placeholder and queues its fill. */
  lemma LoadMutableItem(reg: Registry, items: seq<Node>, i: nat, st: BuildState)
    requires i < |items| && items[i].Fab? && (items[i].info.ListNode? || items[i].info.DictNode?)
    ensures LoadItems(reg, items, i, st) == LoadItems(reg, items, i + 1, LoadPlaceholder(items[i].info, st).value)
  {
    assert LoadAny(reg, items[i], st) == LoadPlaceholder(items[i].info, st);
  }

  /** Any other item: the loop goes on from whatever loading it leaves. */
  lemma LoadNextItem(reg: Registry, items: seq<Node>, i: nat, st: BuildState, st1: BuildState)
    requires i < |items| && LoadAny(reg, items[i], st) == Ok(st1)
    ensures LoadItems(reg, items, i, st) == LoadItems(reg, items, i + 1, st1)
  {
  }

  lemma LoadItemsEnd(reg: Registry, items: seq<Node>, st: BuildState)
    ensures LoadItems(reg, items, |items|, st) == Ok(st)
  {
  }

  // ------------------------------------------- test_save_load_recursive_tuples

  /** `inner_list = [1, 2]; my_tuple = (1, 2, inner_list, 3, 4); inner_list.append(my_tuple)`:
      object 0 is the tuple, object 1 the list. */
  const RecHeap: Heap := [TupleObj([I1, I2, Obj(1), I3, I4]), ListObj([I1, I2, Obj(0)])]

  /** The list as saved: its last item is a reference to the tuple's memo id. */
  const RecInner := ListNode(3, [B1, B2, Fab(Reference(0))])

  /** The tuple as saved. The list takes memo id 3, after the tuple and the scalars 1 and 2;
      the scalars' later occurrences take no new id. */
  const RecSaved := TupleNode(0, [B1, B2, Fab(RecInner), B3, B4])

  lemma RecClosed()
    ensures Closed(RecHeap) && ItemsIn(RecHeap, RecHeap[0].items) && ItemsIn(RecHeap, RecHeap[1].items)
  {
    forall o, i | 0 <= o < |RecHeap| && 0 <= i < |Children(RecHeap[o])|
      ensures ValidIn(RecHeap, Children(RecHeap[o])[i])
    {
    }
  }

  /** The list, met with the tuple and the scalars 1 and 2 already in the memo. */
  lemma SaveRecInner(st: Serializer.SaveState)
    requires Serializer.ObjKey(0) in st.memo && st.memo[Serializer.ObjKey(0)] == 0
    requires Serializer.ObjKey(1) !in st.memo && |st.memo| == 3
    ensures Closed(RecHeap)
    ensures var r := Serializer.SaveAny(RecHeap, Obj(1), st);
      r.Ok? && r.value.stack == st.stack + [Fab(RecInner)] && r.value.metaStack == st.metaStack
  {
    RecClosed();
    var items := RecHeap[1].items;
    var c := ItemContext(RecHeap, 1, st);
    var s1 := SaveLitItem(RecHeap, items, 0, c);
    var s2 := SaveLitItem(RecHeap, items, 1, s1);
    assert Serializer.ObjKey(0) in s2.memo && s2.memo[Serializer.ObjKey(0)] == 0;
    var s3 := SaveSeenItem(RecHeap, items, 2, s2);
    assert s3.stack == [B1, B2, Fab(Reference(0))];
    assert Serializer.SaveItems(RecHeap, items, 3, s3) == Ok(s3);
    SaveFreshSeq(RecHeap, 1, st, s3);
  }

  /** The tuple's items 1 and 2: two bare nodes, the memo grown to three entries. */
  lemma SaveRecHead(c: Serializer.SaveState) returns (s2: Serializer.SaveState)
    requires c.memo == map[Serializer.ObjKey(0) := 0] && c.stack == []
    ensures Closed(RecHeap)
    ensures Serializer.SaveItems(RecHeap, RecHeap[0].items, 0, c) == Serializer.SaveItems(RecHeap, RecHeap[0].items, 2, s2)
    ensures s2.stack == [B1, B2] && s2.metaStack == c.metaStack
    ensures Serializer.ObjKey(0) in s2.memo && s2.memo[Serializer.ObjKey(0)] == 0
    ensures Serializer.ObjKey(1) !in s2.memo && |s2.memo| == 3
  {
    RecClosed();
    var items := RecHeap[0].items;
    assert items[0] == I1 && items[1] == I2;
    var s1 := SaveLitItem(RecHeap, items, 0, c);
    s2 := SaveLitItem(RecHeap, items, 1, s1);
    assert Serializer.LitKey(Int(1)) !in c.memo && |s1.memo| == 2;
    assert Serializer.LitKey(Int(2)) !in s1.memo;
  }

  /** The tuple's items 3 and 4 after the list: two more bare nodes, and the loop ends. */
  lemma SaveRecTail(s3: Serializer.SaveState)
    ensures Closed(RecHeap)
    ensures var r := Serializer.SaveItems(RecHeap, RecHeap[0].items, 3, s3);
      r.Ok? && r.value.stack == s3.stack + [B3, B4] && r.value.metaStack == s3.metaStack
  {
    RecClosed();
    var items := RecHeap[0].items;
    var s4 := SaveLitItem(RecHeap, items, 3, s3);
    var s5 := SaveLitItem(RecHeap, items, 4, s4);
    assert Serializer.SaveItems(RecHeap, items, 5, s5) == Ok(s5);
  }

  /** `save(my_tuple)`: the list inside refers back to the tuple by its memo id. */
  lemma SaveRecursiveTuple()
    ensures Closed(RecHeap)
    ensures Serializer.Save(RecHeap, Obj(0)) == Ok(Fab(RecSaved))
  {
    RecClosed();
    var items := RecHeap[0].items;
    assert items[2] == Obj(1);
    var st0 := Serializer.Fresh();
    var c := ItemContext(RecHeap, 0, st0);
    var s2 := SaveRecHead(c);
    SaveRecInner(s2);
    var s3 := Serializer.SaveAny(RecHeap, Obj(1), s2).value;
    SaveNextItem(RecHeap, items, 2, s2, s3);
    SaveRecTail(s3);
    var s5 := Serializer.SaveItems(RecHeap, items, 3, s3).value;
    Five(B1, B2, Fab(RecInner), B3, B4);
    SaveFreshSeq(RecHeap, 0, st0, s5);
  }

  lemma Five<T>(a: T, b: T, c: T, d: T, e: T)
    ensures [a, b] + [c] + [d, e] == [a, b, c, d, e]
  {
  }

  /** Loading the tuple's items: scalars pushed, and for the list an empty placeholder
      allocated, registered under 3 and pushed, with its fill queued. */
  lemma LoadRecItems(reg: Registry, st: BuildState)
    ensures var a := |st.heap|;
      LoadItems(reg, RecSaved.items, 0, st)
      == Ok(st.(heap := st.heap + [ListObj([])], memo := st.memo[3 := Obj(a)],
                stack := st.stack + [I1, I2, Obj(a), I3, I4], jobs := st.jobs + [Fill(RecInner)]))
  {
    var a := |st.heap|;
    var items := RecSaved.items;
    LoadBareItem(reg, items, 0, st);
    var s1 := Builder.Put(st, I1);
    LoadBareItem(reg, items, 1, s1);
    var s2 := Builder.Put(s1, I2);
    LoadMutableItem(reg, items, 2, s2);
    var s3 := LoadPlaceholder(RecInner, s2).value;
    LoadBareItem(reg, items, 3, s3);
    var s4 := Builder.Put(s3, I3);
    LoadBareItem(reg, items, 4, s4);
    var s5 := Builder.Put(s4, I4);
    LoadItemsEnd(reg, items, s5);
    PushFive(st.stack, I1, I2, Obj(a), I3, I4);
  }

  /** Five pushes, one at a time, leave the five values in order. */
  lemma PushFive<T>(s: seq<T>, x1: T, x2: T, x3: T, x4: T, x5: T)
    ensures s + [x1] + [x2] + [x3] + [x4] + [x5] == s + [x1, x2, x3, x4, x5]
  {
  }

  /** The list's fill job: its items are loaded in a scope of their own, the reference
      yielding whatever is registered under 0, and the placeholder is extended with them. */
  lemma LoadRecFill(reg: Registry, st: BuildState)
    requires 3 in st.memo && st.memo[3].Obj? && st.memo[3].id < |st.heap| && st.heap[st.memo[3].id] == ListObj([])
    requires 0 in st.memo
    ensures FiniList(reg, RecInner, st) == Ok(st.(heap := st.heap[st.memo[3].id := ListObj([I1, I2, st.memo[0]])]))
  {
    var a := st.memo[3].id;
    var items := RecInner.items;
    assert Target(RecInner, st) == Ok(Obj(a));
    var p := PushJobs(Builder.PushContext(st));
    LoadBareItem(reg, items, 0, p);
    var s1 := Builder.Put(p, I1);
    LoadBareItem(reg, items, 1, s1);
    var s2 := Builder.Put(s1, I2);
    LoadRefItem(reg, items, 2, s2);
    var s3 := Builder.Put(s2, st.memo[0]);
    LoadItemsEnd(reg, items, s3);
    assert LoadKids(reg, RecInner, p) == Ok(s3);
    assert DoJobs(reg, s3) == Ok(s3);
    var s4 := PopJobs(s3);
    assert LoadScoped(reg, RecInner, st) == Ok(s4);
    assert s4.heap == st.heap && s4.stack == [I1, I2, st.memo[0]];
    assert s4.metaStack == st.metaStack + [st.stack] && s4.jobs == st.jobs && s4.metaJobs == st.metaJobs && s4.memo == st.memo;
    assert s4.heap[a].items + s4.stack == [I1, I2, st.memo[0]];
    var filled := ListObj([I1, I2, st.memo[0]]);
    assert FiniList(reg, RecInner, st) == Ok(Builder.PopContext(s4.(heap := s4.heap[a := filled])));
  }

  /** The tuple's queue: its finish job runs first and registers the tuple under 0, so the
      list's fill that follows finds it. */
  lemma LoadRecJobs(reg: Registry, st: BuildState)
    requires st.jobs == [FiniTuple(0), Fill(RecInner)] && |st.metaStack| > 0
    requires 3 in st.memo && st.memo[3].Obj? && st.memo[3].id < |st.heap| && st.heap[st.memo[3].id] == ListObj([])
    ensures var a := st.memo[3].id; var b := |st.heap|; var n := |st.metaStack|;
      DoJobs(reg, st) == Ok(BuildState((st.heap + [TupleObj(st.stack)])[a := ListObj([I1, I2, Obj(b)])], st.memo[0 := Obj(b)],
        st.metaStack[n - 1] + [Obj(b)], st.metaStack[..n - 1], [], st.metaJobs))
  {
    var a := st.memo[3].id;
    var b := |st.heap|;
    var s1 := FiniTupleJob(0, st);
    assert RunJob(reg, FiniTuple(0), st) == Ok(s1);
    assert s1.memo[0] == Obj(b) && s1.memo[3] == Obj(a) && s1.heap[a] == ListObj([]);
    LoadRecFill(reg, s1);
    var s2 := s1.(heap := s1.heap[a := ListObj([I1, I2, Obj(b)])]);
    assert RunJob(reg, Fill(RecInner), s1) == Ok(s2);
    assert RunJobs(reg, st.jobs, 2, s2) == Ok(s2);
    assert RunJobs(reg, st.jobs, 0, st) == Ok(s2);
  }

  /** `load(saved)`: a new list and a new tuple, after everything already on the heap; the
      tuple holds the list, and the list's last item is the tuple itself. */
  lemma LoadRecursiveTuple(reg: Registry, world: Heap)
    ensures var a := |world|;
      Load(reg, world, Fab(RecSaved))
      == Ok((world + [ListObj([I1, I2, Obj(a + 1)]), TupleObj([I1, I2, Obj(a), I3, I4])], Obj(a + 1)))
  {
    var a := |world|;
    var st3 := Builder.PushContext(PushJobs(Start(world)).(jobs := [FiniTuple(0)]));
    LoadRecItems(reg, st3);
    var st4 := LoadItems(reg, RecSaved.items, 0, st3).value;
    assert st4.heap == world + [ListObj([])] && st4.memo == map[3 := Obj(a)];
    assert st4.stack == [I1, I2, Obj(a), I3, I4] && st4.jobs == [FiniTuple(0), Fill(RecInner)] && st4.metaStack == [[]];
    LoadRecJobs(reg, st4);
    var heap := (st4.heap + [TupleObj(st4.stack)])[a := ListObj([I1, I2, Obj(a + 1)])];
    assert heap == world + [ListObj([I1, I2, Obj(a + 1)]), TupleObj([I1, I2, Obj(a), I3, I4])];
    LoadRootTupleJobs(reg, world, RecSaved, st4, BuildState(heap, st4.memo[0 := Obj(a + 1)], [Obj(a + 1)], [], [], [[]]));
  }

  /** A root tuple whose queue, once its items are loaded, runs to a state holding just the
      tuple: loading it returns that tuple and the heap the queue left. */
  lemma LoadRootTupleJobs(reg: Registry, world: Heap, info: FabInfo, st: BuildState, s5: BuildState)
    requires info.TupleNode?
    requires LoadItems(reg, info.items, 0, Builder.PushContext(PushJobs(Start(world)).(jobs := [FiniTuple(info.memoId)]))) == Ok(st)
    requires QueueOk(st.jobs, 0, |st.metaStack|) && DoJobs(reg, st) == Ok(s5)
    requires |s5.stack| == 1 && s5.metaStack == [] && s5.jobs == [] && s5.metaJobs == [[]]
    ensures Load(reg, world, Fab(info)) == Ok((s5.heap, s5.stack[0]))
  {
    var st0 := Start(world);
    var s6 := PopJobs(s5);
    assert s6 == s5.(metaJobs := []);
    BuilderProofs.TupleLoadSteps(reg, info, st0, s5);
    assert Drain(reg, s6) == Ok(s6);
    assert LoadState(reg, world, Fab(info)) == Ok(s6);
  }

  /** `test_save_load_recursive_tuples`, loading next to the original graph: the loaded
      tuple is not the original; its scalars are the original's; its third item is a list
      of 1, 2 and the loaded tuple itself. */
  lemma RecursiveTuplesRoundTrip(reg: Registry)
    ensures Closed(RecHeap) && Serializer.Save(RecHeap, Obj(0)).Ok?
    ensures var r := Load(reg, RecHeap, Serializer.Save(RecHeap, Obj(0)).value);
      && r.Ok? && var (h, v) := r.value;
      && v.Obj? && v != Obj(0) && v.id < |h| && h[v.id].TupleObj? && |h[v.id].items| == 5
      && (forall k :: k in {0, 1, 3, 4} ==> h[v.id].items[k] == RecHeap[0].items[k])
      && h[v.id].items[2].Obj? && h[v.id].items[2].id < |h|
      && var inner := h[h[v.id].items[2].id];
      && inner.ListObj? && inner.items == [I1, I2, v]
  {
    SaveRecursiveTuple();
    LoadRecursiveTuple(reg, RecHeap);
  }

  // ---------------------------------------------- test_save_load_nested_tuple

  /** `nested_tuple = (1, 2, 3); main_tuple = (3, 4, nested_tuple)`. */
  const NestHeap: Heap := [TupleObj([I3, I4, Obj(1)]), TupleObj([I1, I2, I3])]

  /** The inner tuple as saved: memo id 3, after the outer tuple and the scalars 3 and 4. */
  const NestInner := TupleNode(3, [B1, B2, B3])

  const NestSaved := TupleNode(0, [B3, B4, Fab(NestInner)])

  lemma NestClosed()
    ensures Closed(NestHeap) && ItemsIn(NestHeap, NestHeap[0].items) && ItemsIn(NestHeap, NestHeap[1].items)
  {
    forall o, i | 0 <= o < |NestHeap| && 0 <= i < |Children(NestHeap[o])|
      ensures ValidIn(NestHeap, Children(NestHeap[o])[i])
    {
    }
  }

  /** The inner tuple, met third: a tuple node of its scalars. */
  lemma SaveNestInner(st: Serializer.SaveState)
    requires Serializer.ObjKey(1) !in st.memo && |st.memo| == 3
    ensures Closed(NestHeap)
    ensures var r := Serializer.SaveAny(NestHeap, Obj(1), st);
      r.Ok? && r.value.stack == st.stack + [Fab(NestInner)] && r.value.metaStack == st.metaStack
  {
    NestClosed();
    var items := NestHeap[1].items;
    var c := ItemContext(NestHeap, 1, st);
    Scenarios.SaveLits(NestHeap, items, 0, c);
    var s3 := Serializer.SaveItems(NestHeap, items, 0, c).value;
    assert s3.stack == [B1, B2, B3];
    SaveFreshSeq(NestHeap, 1, st, s3);
  }

  /** `save(main_tuple)`. */
  lemma SaveNestedTuple()
    ensures Closed(NestHeap)
    ensures Serializer.Save(NestHeap, Obj(0)) == Ok(Fab(NestSaved))
  {
    NestClosed();
    var st0 := Serializer.Fresh();
    var s3 := SaveNestItems();
    SaveFreshSeq(NestHeap, 0, st0, s3);
  }

  /** The outer tuple's item loop: two bare scalars, then the inner tuple's node. */
  lemma SaveNestItems() returns (s3: Serializer.SaveState)
    ensures Closed(NestHeap) && ItemsIn(NestHeap, NestHeap[0].items)
    ensures Serializer.SaveItems(NestHeap, NestHeap[0].items, 0, ItemContext(NestHeap, 0, Serializer.Fresh())) == Ok(s3)
    ensures s3.stack == [B3, B4, Fab(NestInner)]
  {
    NestClosed();
    var items := NestHeap[0].items;
    assert items[2] == Obj(1);
    var c := ItemContext(NestHeap, 0, Serializer.Fresh());
    assert c.memo == map[Serializer.ObjKey(0) := 0] && c.stack == [];
    var s1 := SaveLitItem(NestHeap, items, 0, c);
    var s2 := SaveLitItem(NestHeap, items, 1, s1);
    assert |s2.memo| == 3 && Serializer.ObjKey(1) !in s2.memo && s2.stack == [B3, B4];
    SaveNestInner(s2);
    s3 := Serializer.SaveAny(NestHeap, Obj(1), s2).value;
    SaveNextItem(NestHeap, items, 2, s2, s3);
    assert Serializer.SaveItems(NestHeap, items, 3, s3) == Ok(s3);
    assert s3.stack == [B3, B4, Fab(NestInner)];
  }

  /** A tuple node of three scalars, loaded anywhere: its own queue holds only its finish
      job, which builds the tuple, registers it and pushes it; nothing else changes. */
  lemma LoadNestInner(reg: Registry, st: BuildState)
    ensures var a := |st.heap|;
      LoadAny(reg, Fab(NestInner), st)
      == Ok(st.(heap := st.heap + [TupleObj([I1, I2, I3])], memo := st.memo[3 := Obj(a)], stack := st.stack + [Obj(a)]))
  {
    var items := NestInner.items;
    assert LoadAny(reg, Fab(NestInner), st) == LoadFab(reg, NestInner, st) == LoadTuple(reg, NestInner, st);
    var p := Builder.PushContext(PushJobs(st).(jobs := [FiniTuple(3)]));
    LoadBareItem(reg, items, 0, p);
    var s1 := Builder.Put(p, I1);
    LoadBareItem(reg, items, 1, s1);
    var s2 := Builder.Put(s1, I2);
    LoadBareItem(reg, items, 2, s2);
    var s3 := Builder.Put(s2, I3);
    LoadItemsEnd(reg, items, s3);
    assert s3.stack == [I1, I2, I3];
    var s4 := FiniTupleJob(3, s3);
    assert RunJobs(reg, s3.jobs, 0, s3) == Ok(s4);
    assert s4.stack == st.stack + [Obj(|st.heap|)] && s4.metaStack == st.metaStack;
  }

  /** The outer tuple's items: two scalars, then the inner tuple, built on the spot. */
  lemma LoadNestItems(reg: Registry, st: BuildState)
    ensures var a := |st.heap|;
      LoadItems(reg, NestSaved.items, 0, st)
      == Ok(st.(heap := st.heap + [TupleObj([I1, I2, I3])], memo := st.memo[3 := Obj(a)], stack := st.stack + [I3, I4, Obj(a)]))
  {
    var items := NestSaved.items;
    LoadBareItem(reg, items, 0, st);
    var s1 := Builder.Put(st, I3);
    LoadBareItem(reg, items, 1, s1);
    var s2 := Builder.Put(s1, I4);
    LoadNestInner(reg, s2);
    var s3 := LoadAny(reg, Fab(NestInner), s2).value;
    LoadNextItem(reg, items, 2, s2, s3);
    LoadItemsEnd(reg, items, s3);
    assert s3.stack == st.stack + [I3, I4, Obj(|st.heap|)];
  }

  /** A root tuple whose items leave no job behind: loading it builds the tuple from the
      loaded items and returns it. */
  lemma LoadRootTuple(reg: Registry, world: Heap, info: FabInfo, st: BuildState)
    requires info.TupleNode?
    requires LoadItems(reg, info.items, 0, Builder.PushContext(PushJobs(Start(world)).(jobs := [FiniTuple(info.memoId)]))) == Ok(st)
    requires st.jobs == [FiniTuple(info.memoId)]
    ensures Load(reg, world, Fab(info)) == Ok((st.heap + [TupleObj(st.stack)], Obj(|st.heap|)))
  {
    var st5 := RootTupleJobs(reg, world, info, st);
    assert LoadAny(reg, Fab(info), Start(world)) == LoadFab(reg, info, Start(world)) == LoadTuple(reg, info, Start(world)) == Ok(st5);
    assert Drain(reg, st5) == Ok(st5);
    assert LoadState(reg, world, Fab(info)) == Ok(st5);
  }

  /** The root tuple's own queue: its finish job alone, which leaves the tuple as the one
      value of an empty context. */
  lemma RootTupleJobs(reg: Registry, world: Heap, info: FabInfo, st: BuildState) returns (st5: BuildState)
    requires info.TupleNode?
    requires LoadItems(reg, info.items, 0, Builder.PushContext(PushJobs(Start(world)).(jobs := [FiniTuple(info.memoId)]))) == Ok(st)
    requires st.jobs == [FiniTuple(info.memoId)]
    ensures st5 == BuildState(st.heap + [TupleObj(st.stack)], st.memo[info.memoId := Obj(|st.heap|)], [Obj(|st.heap|)], [], [], [])
    ensures LoadTuple(reg, info, Start(world)) == Ok(st5)
  {
    var s4 := FiniTupleJob(info.memoId, st);
    assert st.metaStack == [[]] && st.metaJobs == [[]];
    assert RunJob(reg, FiniTuple(info.memoId), st) == Ok(s4);
    assert RunJobs(reg, st.jobs, 1, s4) == Ok(s4);
    assert RunJobs(reg, st.jobs, 0, st) == Ok(s4);
    assert DoJobs(reg, st) == Ok(s4.(jobs := []));
    st5 := PopJobs(s4.(jobs := []));
    assert st5.stack == [Obj(|st.heap|)] && st5.metaStack == [] && st5.jobs == [] && st5.metaJobs == [];
  }

  /** `load(saved)`: the inner tuple is built first, inside the outer tuple's item loop,
      and the outer tuple after it. */
  lemma LoadNestedTuple(reg: Registry, world: Heap)
    ensures var a := |world|;
      Load(reg, world, Fab(NestSaved))
      == Ok((world + [TupleObj([I1, I2, I3]), TupleObj([I3, I4, Obj(a)])], Obj(a + 1)))
  {
    var a := |world|;
    var p := Builder.PushContext(PushJobs(Start(world)).(jobs := [FiniTuple(0)]));
    LoadNestItems(reg, p);
    var s3 := LoadItems(reg, NestSaved.items, 0, p).value;
    assert s3.stack == [I3, I4, Obj(a)] && s3.heap == world + [TupleObj([I1, I2, I3])];
    LoadRootTuple(reg, world, NestSaved, s3);
    assert |s3.heap| == a + 1;
    assert s3.heap + [TupleObj(s3.stack)] == world + [TupleObj([I1, I2, I3]), TupleObj([I3, I4, Obj(a)])];
  }

  /** `test_save_load_nested_tuple`, loading next to the original graph: the loaded tuple
      is not the original, and it equals it item by item, its inner tuple a new one equal
      to the original inner tuple. */
  lemma NestedTupleRoundTrip(reg: Registry)
    ensures Closed(NestHeap) && Serializer.Save(NestHeap, Obj(0)).Ok?
    ensures var r := Load(reg, NestHeap, Serializer.Save(NestHeap, Obj(0)).value);
      && r.Ok? && var (h, v) := r.value;
      && v.Obj? && v != Obj(0) && v.id < |h| && h[v.id].TupleObj? && |h[v.id].items| == 3
      && h[v.id].items[..2] == NestHeap[0].items[..2]
      && h[v.id].items[2].Obj? && h[v.id].items[2] != Obj(1) && h[v.id].items[2].id < |h|
      && h[h[v.id].items[2].id] == NestHeap[1]
  {
    SaveNestedTuple();
    LoadNestedTuple(reg, NestHeap);
  }

  // ----------------------------------------- a sibling shares a deeper object

  /** `c = []; a = [c]; root = [a, c]`: object 0 is `root`, 1 is `a`, 2 is `c`. */
  const SibHeap: Heap := [ListObj([Obj(1), Obj(2)]), ListObj([Obj(2)]), ListObj([])]

  const SibEmpty := ListNode(2, [])
  const SibMiddle := ListNode(1, [Fab(SibEmpty)])

  /** `root` as saved: `c` is introduced inside `a`, and `root`'s second item refers to it. */
  const SibSaved := ListNode(0, [Fab(SibMiddle), Fab(Reference(2))])

  lemma SibClosed()
    ensures Closed(SibHeap) && forall o :: 0 <= o < |SibHeap| ==> ItemsIn(SibHeap, SibHeap[o].items)
  {
    forall o, i | 0 <= o < |SibHeap| && 0 <= i < |Children(SibHeap[o])|
      ensures ValidIn(SibHeap, Children(SibHeap[o])[i])
    {
    }
  }

  /** `c`, met third: an empty list node under memo id 2. */
  lemma SaveSibEmpty(st: Serializer.SaveState)
    requires Serializer.ObjKey(2) !in st.memo && |st.memo| == 2
    ensures Closed(SibHeap)
    ensures var r := Serializer.SaveAny(SibHeap, Obj(2), st);
      && r.Ok? && r.value.stack == st.stack + [Fab(SibEmpty)] && r.value.metaStack == st.metaStack
      && Serializer.ObjKey(2) in r.value.memo && r.value.memo[Serializer.ObjKey(2)] == 2
  {
    SibClosed();
    var c := ItemContext(SibHeap, 2, st);
    assert Serializer.SaveItems(SibHeap, SibHeap[2].items, 0, c) == Ok(c);
    SaveFreshSeq(SibHeap, 2, st, c);
  }

  /** `a`, met second: a list node holding `c`'s node. */
  lemma SaveSibMiddle(st: Serializer.SaveState)
    requires Serializer.ObjKey(1) !in st.memo && Serializer.ObjKey(2) !in st.memo && |st.memo| == 1
    ensures Closed(SibHeap)
    ensures var r := Serializer.SaveAny(SibHeap, Obj(1), st);
      && r.Ok? && r.value.stack == st.stack + [Fab(SibMiddle)] && r.value.metaStack == st.metaStack
      && Serializer.ObjKey(2) in r.value.memo && r.value.memo[Serializer.ObjKey(2)] == 2
  {
    SibClosed();
    var items := SibHeap[1].items;
    var c := ItemContext(SibHeap, 1, st);
    SaveSibEmpty(c);
    var s1 := Serializer.SaveAny(SibHeap, Obj(2), c).value;
    SaveNextItem(SibHeap, items, 0, c, s1);
    assert Serializer.SaveItems(SibHeap, items, 1, s1) == Ok(s1);
    SaveFreshSeq(SibHeap, 1, st, s1);
  }

  /** `save(root)`: `c` is saved once, inside `a`, and `root`'s own reference to it is a
      reference node. */
  lemma SaveSibling()
    ensures Closed(SibHeap)
    ensures Serializer.Save(SibHeap, Obj(0)) == Ok(Fab(SibSaved))
  {
    SibClosed();
    var items := SibHeap[0].items;
    var st0 := Serializer.Fresh();
    var c := ItemContext(SibHeap, 0, st0);
    assert c.memo == map[Serializer.ObjKey(0) := 0] && c.stack == [];
    SaveSibMiddle(c);
    var s1 := Serializer.SaveAny(SibHeap, Obj(1), c).value;
    SaveNextItem(SibHeap, items, 0, c, s1);
    var s2 := SaveSeenItem(SibHeap, items, 1, s1);
    assert Serializer.SaveItems(SibHeap, items, 2, s2) == Ok(s2);
    assert s2.stack == [Fab(SibMiddle), Fab(Reference(2))];
    SaveFreshSeq(SibHeap, 0, st0, s2);
  }

  /** `root`'s fill job: `a`'s placeholder is registered under 1 and its fill queued, but the
      reference to 2 is looked up before that fill, which alone would register `c`. */
  lemma SibFill(reg: Registry, st: BuildState)
    requires 0 in st.memo && st.memo[0].Obj? && st.memo[0].id < |st.heap| && st.heap[st.memo[0].id] == ListObj([])
    requires 2 !in st.memo
    ensures FiniList(reg, SibSaved, st) == Err(UnresolvedReference(2))
  {
    var items := SibSaved.items;
    assert Target(SibSaved, st).Ok?;
    var p := PushJobs(Builder.PushContext(st));
    LoadMutableItem(reg, items, 0, p);
    var s1 := LoadPlaceholder(SibMiddle, p).value;
    LoadRefItem(reg, items, 1, s1);
    assert LoadKids(reg, SibSaved, p) == Err(UnresolvedReference(2));
  }

  /** `load(save(root))` fails: the saved tree is rejected as a dangling reference. */
  lemma LoadSiblingFails(reg: Registry, world: Heap)
    ensures Load(reg, world, Fab(SibSaved)) == Err(UnresolvedReference(2))
  {
    var st0 := Start(world);
    assert LoadAny(reg, Fab(SibSaved), st0) == LoadFab(reg, SibSaved, st0) == LoadPlaceholder(SibSaved, st0);
    var st1 := LoadPlaceholder(SibSaved, st0).value;
    assert st1.memo == map[0 := Obj(|world|)] && st1.heap[|world|] == ListObj([]) && st1.jobs == [Fill(SibSaved)];
    SibFill(reg, st1);
    assert RunJobs(reg, st1.jobs, 0, st1) == Err(UnresolvedReference(2));
    assert Drain(reg, st1) == Err(UnresolvedReference(2));
  }

  /** Saving and loading `root` fails, though `root` is a well-formed acyclic graph. */
  lemma SiblingRoundTripFails(reg: Registry, world: Heap)
    ensures Closed(SibHeap) && Serializer.Save(SibHeap, Obj(0)).Ok?
    ensures Load(reg, world, Serializer.Save(SibHeap, Obj(0)).value) == Err(UnresolvedReference(2))
  {
    SaveSibling();
    LoadSiblingFails(reg, world);
  }

  // --------------------------------------- a cycle through two nested tuples

  /** `l = []; t1 = (l,); t0 = (t1,); l.append(t0)`: object 0 is `t0`, 1 is `t1`, 2 is `l`. */
  const CycHeap: Heap := [TupleObj([Obj(1)]), TupleObj([Obj(2)]), ListObj([Obj(0)])]

  const CycList := ListNode(2, [Fab(Reference(0))])
  const CycInner := TupleNode(1, [Fab(CycList)])

  /** `t0` as saved. */
  const CycSaved := TupleNode(0, [Fab(CycInner)])

  lemma CycClosed()
    ensures Closed(CycHeap) && forall o :: 0 <= o < |CycHeap| ==> ItemsIn(CycHeap, CycHeap[o].items)
  {
    forall o, i | 0 <= o < |CycHeap| && 0 <= i < |Children(CycHeap[o])|
      ensures ValidIn(CycHeap, Children(CycHeap[o])[i])
    {
    }
  }

  /** `l`, met third: a list node whose item refers back to `t0`. */
  lemma SaveCycList(st: Serializer.SaveState)
    requires Serializer.ObjKey(0) in st.memo && st.memo[Serializer.ObjKey(0)] == 0
    requires Serializer.ObjKey(2) !in st.memo && |st.memo| == 2
    ensures Closed(CycHeap)
    ensures var r := Serializer.SaveAny(CycHeap, Obj(2), st);
      r.Ok? && r.value.stack == st.stack + [Fab(CycList)] && r.value.metaStack == st.metaStack
  {
    CycClosed();
    var items := CycHeap[2].items;
    var c := ItemContext(CycHeap, 2, st);
    var s1 := SaveSeenItem(CycHeap, items, 0, c);
    assert Serializer.SaveItems(CycHeap, items, 1, s1) == Ok(s1);
    assert s1.stack == [Fab(Reference(0))];
    SaveFreshSeq(CycHeap, 2, st, s1);
  }

  /** `t1`, met second. */
  lemma SaveCycInner(st: Serializer.SaveState)
    requires Serializer.ObjKey(0) in st.memo && st.memo[Serializer.ObjKey(0)] == 0
    requires Serializer.ObjKey(1) !in st.memo && Serializer.ObjKey(2) !in st.memo && |st.memo| == 1
    ensures Closed(CycHeap)
    ensures var r := Serializer.SaveAny(CycHeap, Obj(1), st);
      r.Ok? && r.value.stack == st.stack + [Fab(CycInner)] && r.value.metaStack == st.metaStack
  {
    CycClosed();
    var items := CycHeap[1].items;
    var c := ItemContext(CycHeap, 1, st);
    SaveCycList(c);
    var s1 := Serializer.SaveAny(CycHeap, Obj(2), c).value;
    SaveNextItem(CycHeap, items, 0, c, s1);
    assert Serializer.SaveItems(CycHeap, items, 1, s1) == Ok(s1);
    SaveFreshSeq(CycHeap, 1, st, s1);
  }

  /** `save(t0)`: the list at the bottom refers back to the outer tuple. */
  lemma SaveNestedCycle()
    ensures Closed(CycHeap)
    ensures Serializer.Save(CycHeap, Obj(0)) == Ok(Fab(CycSaved))
  {
    CycClosed();
    var items := CycHeap[0].items;
    var st0 := Serializer.Fresh();
    var c := ItemContext(CycHeap, 0, st0);
    assert c.memo == map[Serializer.ObjKey(0) := 0] && c.stack == [];
    SaveCycInner(c);
    var s1 := Serializer.SaveAny(CycHeap, Obj(1), c).value;
    SaveNextItem(CycHeap, items, 0, c, s1);
    assert Serializer.SaveItems(CycHeap, items, 1, s1) == Ok(s1);
    SaveFreshSeq(CycHeap, 0, st0, s1);
  }

  /** `l`'s fill, run from `t1`'s queue: `t0` is not registered yet. */
  lemma CycFill(reg: Registry, st: BuildState)
    requires 2 in st.memo && st.memo[2].Obj? && st.memo[2].id < |st.heap| && st.heap[st.memo[2].id] == ListObj([])
    requires 0 !in st.memo
    ensures FiniList(reg, CycList, st) == Err(UnresolvedReference(0))
  {
    assert Target(CycList, st).Ok?;
    var p := PushJobs(Builder.PushContext(st));
    LoadRefItem(reg, CycList.items, 0, p);
    assert LoadKids(reg, CycList, p) == Err(UnresolvedReference(0));
  }

  /** `t1`, loaded while `t0`'s items are being loaded: its own queue finishes `t1` and then
      fills `l`, whose reference to `t0` precedes `t0`'s finish job. */
  lemma LoadCycInner(reg: Registry, st: BuildState)
    requires 0 !in st.memo
    ensures LoadAny(reg, Fab(CycInner), st) == Err(UnresolvedReference(0))
  {
    assert LoadAny(reg, Fab(CycInner), st) == LoadFab(reg, CycInner, st) == LoadTuple(reg, CycInner, st);
    var p := Builder.PushContext(PushJobs(st).(jobs := [FiniTuple(1)]));
    LoadMutableItem(reg, CycInner.items, 0, p);
    var s := LoadPlaceholder(CycList, p).value;
    LoadItemsEnd(reg, CycInner.items, s);
    assert LoadItems(reg, CycInner.items, 0, p) == Ok(s);
    assert s.jobs == [FiniTuple(1), Fill(CycList)] && |s.metaStack| > 0;
    CycJobs(reg, s);
  }

  /** `t1`'s queue: `t1` is finished and registered under 1, then `l`'s fill fails. */
  lemma CycJobs(reg: Registry, s: BuildState)
    requires s.jobs == [FiniTuple(1), Fill(CycList)] && |s.metaStack| > 0
    requires 2 in s.memo && s.memo[2].Obj? && s.memo[2].id < |s.heap| && s.heap[s.memo[2].id] == ListObj([])
    requires 0 !in s.memo
    ensures DoJobs(reg, s) == Err(UnresolvedReference(0))
  {
    var s1 := FiniTupleJob(1, s);
    assert 0 !in s1.memo && s1.memo[2] == s.memo[2] && s1.heap[s.memo[2].id] == ListObj([]);
    CycFill(reg, s1);
    assert RunJobs(reg, s.jobs, 1, s1) == Err(UnresolvedReference(0));
    assert RunJobs(reg, s.jobs, 0, s) == Err(UnresolvedReference(0));
  }

  /** `load(save(t0))` fails: a cycle that passes through two directly nested tuples before
      reaching a list looks the outer tuple up before its finish job has run. */
  lemma LoadNestedCycleFails(reg: Registry, world: Heap)
    ensures Load(reg, world, Fab(CycSaved)) == Err(UnresolvedReference(0))
  {
    var st0 := Start(world);
    assert LoadAny(reg, Fab(CycSaved), st0) == LoadFab(reg, CycSaved, st0) == LoadTuple(reg, CycSaved, st0);
    var p := Builder.PushContext(PushJobs(st0).(jobs := [FiniTuple(0)]));
    LoadCycInner(reg, p);
    assert LoadItems(reg, CycSaved.items, 0, p) == Err(UnresolvedReference(0));
  }

  lemma NestedCycleRoundTripFails(reg: Registry, world: Heap)
    ensures Closed(CycHeap) && Serializer.Save(CycHeap, Obj(0)).Ok?
    ensures Load(reg, world, Serializer.Save(CycHeap, Obj(0)).value) == Err(UnresolvedReference(0))
  {
    SaveNestedCycle();
    LoadNestedCycleFails(reg, world);
  }

  // ---------------------------------------------------------- a class seen twice

  const C := QualName("m", "C")

  /** The list `[C, C]` as saved: the second occurrence of the class is a reference to the
      memo id of the first one's `type` node. */
  const TypeTwice := ListNode(0, [Fab(TypeNode(C)), Fab(Reference(1))])

  lemma TypeTwicePlaceholder()
    ensures LoadAny({C}, Fab(TypeTwice), Start([]))
      == Ok(BuildState([ListObj([])], map[0 := Obj(0)], [Obj(0)], [], [Fill(TypeTwice)], []))
  {
    var st0 := Start([]);
    assert LoadAny({C}, Fab(TypeTwice), st0) == LoadFab({C}, TypeTwice, st0) == LoadPlaceholder(TypeTwice, st0);
    assert EmptyOf(TypeTwice) == ListObj([]);
    assert st0.memo[0 := Obj(0)] == map[0 := Obj(0)];
    var r := LoadPlaceholder(TypeTwice, st0).value;
    assert r.heap == [ListObj([])];
    assert r.stack == [Obj(0)];
    assert r.jobs == [Fill(TypeTwice)];
  }

  lemma TypeTwiceItems(st: BuildState)
    requires st.memo == map[0 := Obj(0)]
    ensures LoadItems({C}, TypeTwice.items, 0, st) == Err(UnresolvedReference(1))
  {
    assert LoadAny({C}, Fab(TypeNode(C)), st) == LoadFab({C}, TypeNode(C), st) == LoadType({C}, C, st);
    var st1 := Builder.Put(st, Class(C));
    assert LoadAny({C}, Fab(Reference(1)), st1) == LoadFab({C}, Reference(1), st1) == LoadReference(1, st1);
    assert LoadItems({C}, TypeTwice.items, 1, st1) == Err(UnresolvedReference(1));
  }

  lemma TypeTwiceFill(st: BuildState)
    requires st.heap == [ListObj([])] && st.memo == map[0 := Obj(0)]
    ensures RunJob({C}, Fill(TypeTwice), st) == Err(UnresolvedReference(1))
  {
    assert Target(TypeTwice, st) == Ok(Obj(0));
    var st1 := PushJobs(Builder.PushContext(st));
    TypeTwiceItems(st1);
    assert LoadKids({C}, TypeTwice, st1) == Err(UnresolvedReference(1));
    assert LoadScoped({C}, TypeTwice, st) == Err(UnresolvedReference(1));
    assert FiniList({C}, TypeTwice, st) == Err(UnresolvedReference(1));
  }

  /** Loading the saved `[C, C]` fails: the reference names an id no node introduced. */
  lemma TypeTwiceFails()
    ensures Load({C}, [], Fab(TypeTwice)) == Err(UnresolvedReference(1))
  {
    var st := BuildState([ListObj([])], map[0 := Obj(0)], [Obj(0)], [], [Fill(TypeTwice)], []);
    TypeTwicePlaceholder();
    TypeTwiceFill(st);
    assert RunJobs({C}, st.jobs, 0, st) == Err(UnresolvedReference(1));
    assert Drain({C}, st) == Err(UnresolvedReference(1));
    assert LoadState({C}, [], Fab(TypeTwice)) == Err(UnresolvedReference(1));
  }

  /** `[C, C]`. */
  const TypeHeap: Heap := [ListObj([Class(C), Class(C)])]

  /** `save([C, C])`: the class takes memo id 1 when first seen, and its second occurrence
      becomes a reference to that id. */
  lemma SaveTypeTwice()
    ensures Closed(TypeHeap)
    ensures Serializer.Save(TypeHeap, Obj(0)) == Ok(Fab(TypeTwice))
  {
    assert ItemsIn(TypeHeap, TypeHeap[0].items);
    var items := TypeHeap[0].items;
    var st0 := Serializer.Fresh();
    var c := ItemContext(TypeHeap, 0, st0);
    assert c.memo == map[Serializer.ObjKey(0) := 0] && c.stack == [];
    var s1 := Serializer.SaveState(c.memo[Serializer.ClassKey(C) := 1], [Fab(TypeNode(C))], c.metaStack);
    SaveNextItem(TypeHeap, items, 0, c, s1);
    var s2 := s1.(stack := [Fab(TypeNode(C)), Fab(Reference(1))]);
    assert Serializer.KeyOf(items[1]) in s1.memo && s1.memo[Serializer.KeyOf(items[1])] == 1;
    assert s1.stack + [Fab(Reference(1))] == s2.stack;
    SaveNextItem(TypeHeap, items, 1, s1, s2);
    assert Serializer.SaveItems(TypeHeap, items, 2, s2) == Ok(s2);
    SaveFreshSeq(TypeHeap, 0, st0, s2);
  }

  /** Saving and loading `[C, C]` fails, even with `C` resolvable. */
  lemma TypeTwiceRoundTripFails()
    ensures Closed(TypeHeap) && Serializer.Save(TypeHeap, Obj(0)).Ok?
    ensures Load({C}, [], Serializer.Save(TypeHeap, Obj(0)).value) == Err(UnresolvedReference(1))
  {
    SaveTypeTwice();
    TypeTwiceFails();
  }

  // --------------------------------------------------- a memo id introduced twice

  /** A tree whose two children both introduce memo id 1: the list rebinds 1 before the
      dict's fill runs, and that fill, having no pair to assign, writes into nothing. */
  const Rebound := ListNode(0, [Fab(DictNode(1, [])), Fab(ListNode(1, []))])

  /** The builder once the root placeholder is allocated. */
  const ReboundStart := BuildState([ListObj([])], map[0 := Obj(0)], [Obj(0)], [], [Fill(Rebound)], [])

  /** A fill with no children loads nothing in its fresh context and queue. */
  lemma EmptyScope(reg: Registry, X: FabInfo, st: BuildState)
    requires X.IsMutable() && Kids(X) == []
    ensures LoadScoped(reg, X, st) == Ok(Builder.PushContext(st))
  {
    var p := PushJobs(Builder.PushContext(st));
    if X.ListNode? {
      assert LoadItems(reg, X.items, 0, p) == Ok(p);
    } else {
      assert LoadEntries(reg, X.entries, 0, p) == Ok(p);
    }
    assert LoadKids(reg, X, p) == Ok(p);
    assert DoJobs(reg, p) == Ok(p);
  }

  /** An empty dict fill succeeds whatever its memo entry now is. */
  lemma EmptyDictFill(reg: Registry, st: BuildState)
    requires 1 in st.memo
    ensures RunJob(reg, Fill(DictNode(1, [])), st) == Ok(st)
  {
    var X := DictNode(1, []);
    EmptyScope(reg, X, st);
    assert RunJob(reg, Fill(X), st) == FiniMapping(reg, X, st);
  }

  /** An empty list fill extends its list by nothing. */
  lemma EmptyListFill(reg: Registry, st: BuildState)
    requires 1 in st.memo && st.memo[1].Obj? && st.memo[1].id < |st.heap| && st.heap[st.memo[1].id] == ListObj([])
    ensures RunJob(reg, Fill(ListNode(1, [])), st) == Ok(st)
  {
    var X := ListNode(1, []);
    EmptyScope(reg, X, st);
    var a := st.memo[1].id;
    assert st.heap[a := ListObj([] + [])] == st.heap;
    assert RunJob(reg, Fill(X), st) == FiniList(reg, X, st);
  }

  /** The root's children: a dict placeholder under 1, then a list placeholder rebinding 1,
      each with its fill queued. */
  lemma ReboundKids(reg: Registry) returns (s2: BuildState)
    ensures LoadKids(reg, Rebound, PushJobs(Builder.PushContext(ReboundStart))) == Ok(s2)
    ensures s2 == BuildState([ListObj([]), DictObj([]), ListObj([])], map[0 := Obj(0), 1 := Obj(2)], [Obj(1), Obj(2)],
      [[Obj(0)]], [Fill(DictNode(1, [])), Fill(ListNode(1, []))], [[Fill(Rebound)]])
  {
    var p := PushJobs(Builder.PushContext(ReboundStart));
    LoadMutableItem(reg, Rebound.items, 0, p);
    var s1 := LoadPlaceholder(DictNode(1, []), p).value;
    LoadMutableItem(reg, Rebound.items, 1, s1);
    s2 := LoadPlaceholder(ListNode(1, []), s1).value;
    LoadItemsEnd(reg, Rebound.items, s2);
    assert s2.memo == map[0 := Obj(0), 1 := Obj(2)];
  }

  /** The root's children in their own scope: both queued fills write nothing. */
  lemma ReboundScoped(reg: Registry)
    ensures LoadScoped(reg, Rebound, ReboundStart)
      == Ok(BuildState([ListObj([]), DictObj([]), ListObj([])], map[0 := Obj(0), 1 := Obj(2)], [Obj(1), Obj(2)],
        [[Obj(0)]], [Fill(Rebound)], []))
  {
    var s2 := ReboundKids(reg);
    ReboundQueue(reg, s2);
  }

  lemma ReboundQueue(reg: Registry, s2: BuildState)
    requires s2 == BuildState([ListObj([]), DictObj([]), ListObj([])], map[0 := Obj(0), 1 := Obj(2)], [Obj(1), Obj(2)],
      [[Obj(0)]], [Fill(DictNode(1, [])), Fill(ListNode(1, []))], [[Fill(Rebound)]])
    ensures DoJobs(reg, s2) == Ok(s2.(jobs := []))
  {
    EmptyDictFill(reg, s2);
    EmptyListFill(reg, s2);
    assert RunJobs(reg, s2.jobs, 2, s2) == Ok(s2);
    assert RunJobs(reg, s2.jobs, 1, s2) == Ok(s2);
    assert RunJobs(reg, s2.jobs, 0, s2) == Ok(s2);
  }

  /** The root's fill: the root list takes the two new objects. */
  lemma ReboundFill(reg: Registry)
    ensures RunJob(reg, Fill(Rebound), ReboundStart)
      == Ok(ReboundStart.(heap := [ListObj([Obj(1), Obj(2)]), DictObj([]), ListObj([])], memo := map[0 := Obj(0), 1 := Obj(2)]))
  {
    var st := ReboundStart;
    var s3 := BuildState([ListObj([]), DictObj([]), ListObj([])], map[0 := Obj(0), 1 := Obj(2)], [Obj(1), Obj(2)],
      [[Obj(0)]], [Fill(Rebound)], []);
    ReboundScoped(reg);
    assert Target(Rebound, st) == Ok(Obj(0));
    BuilderProofs.FiniListFills(reg, Rebound, st, 0, s3);
    ReboundPop(s3);
    BuilderProofs.FillJob(reg, Rebound, st);
  }

  /** Popping the root's context once its list holds the two new objects. */
  lemma ReboundPop(s3: BuildState)
    requires s3 == BuildState([ListObj([]), DictObj([]), ListObj([])], map[0 := Obj(0), 1 := Obj(2)], [Obj(1), Obj(2)],
      [[Obj(0)]], [Fill(Rebound)], [])
    ensures Builder.PopContext(s3.(heap := s3.heap[0 := ListObj(s3.heap[0].items + s3.stack)]))
      == ReboundStart.(heap := [ListObj([Obj(1), Obj(2)]), DictObj([]), ListObj([])], memo := map[0 := Obj(0), 1 := Obj(2)])
  {
    assert s3.heap[0].items + s3.stack == [Obj(1), Obj(2)];
    assert [[Obj(0)]][..0] == [];
  }

  /** Loading the tree succeeds with `[{}, []]`: no memo entry is checked for its kind
      until a fill writes into it. */
  lemma LoadRebound(reg: Registry)
    ensures Load(reg, [], Fab(Rebound)) == Ok(([ListObj([Obj(1), Obj(2)]), DictObj([]), ListObj([])], Obj(0)))
  {
    var st0 := Start([]);
    assert LoadAny(reg, Fab(Rebound), st0) == LoadFab(reg, Rebound, st0) == LoadPlaceholder(Rebound, st0);
    assert EmptyOf(Rebound) == ListObj([]);
    assert st0.memo[0 := Obj(0)] == map[0 := Obj(0)];
    var r := LoadPlaceholder(Rebound, st0).value;
    assert r.heap == [ListObj([])] && r.stack == [Obj(0)] && r.jobs == [Fill(Rebound)];
    assert r == ReboundStart;
    ReboundFill(reg);
    var st1 := ReboundStart.(heap := [ListObj([Obj(1), Obj(2)]), DictObj([]), ListObj([])], memo := map[0 := Obj(0), 1 := Obj(2)]);
    assert RunJobs(reg, ReboundStart.jobs, 0, ReboundStart) == Ok(st1);
    assert Drain(reg, st1.(jobs := [])) == Ok(st1.(jobs := []));
    assert Drain(reg, ReboundStart) == Ok(st1.(jobs := []));
  }
}
