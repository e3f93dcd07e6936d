/** When loading cannot fail: a tree that introduces no memo id twice, refers back to
    nothing, and names only classes the registry resolves always loads. Every fill then
    finds its own still empty placeholder, of the kind its node asks for. */
module LoadTotality {
  import opened Results
  import opened Values
  import opened Nodes
  import opened Decoding
  import opened Builder
  import opened BuilderProofs

  /** The tree has no `reference` node, and every class a `type` or `class_instance` node
      names is in the registry. */
  predicate Resolvable(n: Node, reg: Registry)
    decreases Size(n), 0
  {
    match n
    case Bare(_) => true
    case Fab(info) =>
      KidsSmaller(info);
      && !info.Reference?
      && ((info.TypeNode? || info.InstanceNode?) ==> info.cls in reg)
      && ResolvableSeq(Kids(info), reg)
  }

  predicate ResolvableSeq(ns: seq<Node>, reg: Registry)
    decreases SeqSize(ns), 1
  {
    |ns| == 0 || (Resolvable(ns[0], reg) && ResolvableSeq(ns[1..], reg))
  }

  /** `load` succeeds on every such tree, into any heap. */
  lemma LoadSucceeds(reg: Registry, world: Heap, n: Node)
    requires Unique(n) && Resolvable(n, reg)
    ensures LoadState(reg, world, n).Ok? && Load(reg, world, n).Ok?
  {
    RootLoads(reg, world, n);
    DrainRuns(reg, n, LoadAny(reg, n, Start(world)).value);
  }

  /** The root loads into a fresh builder, leaving at most its own fill queued. */
  lemma RootLoads(reg: Registry, world: Heap, n: Node)
    requires Unique(n) && Resolvable(n, reg)
    ensures LoadAny(reg, n, Start(world)).Ok?
    ensures var st1 := LoadAny(reg, n, Start(world)).value;
      Good(st1) && Loaded(st1, n) && st1.jobs == Deferred(n) && st1.metaStack == []
  {
    AnyLoads(reg, n, Start(world));
    LoadAnyOk(reg, n, Start(world));
  }

  /** Draining the root's queue runs its one fill, if it has one. */
  lemma DrainRuns(reg: Registry, n: Node, st1: BuildState)
    requires Unique(n) && Resolvable(n, reg)
    requires Good(st1) && Loaded(st1, n) && st1.jobs == Deferred(n) && st1.metaStack == []
    ensures Drain(reg, st1).Ok?
  {
    if n.Fab? && n.info.IsMutable() {
      var js := st1.jobs;
      assert [n][1..] == [];
      assert js[0..] == DeferredSeq([n]);
      QueueFrom(js, 0, [n], SeqSize([n]) + 1, 0);
      FillsRun(reg, js, 0, [n], st1);
      var st2 := RunJobs(reg, js, 0, st1).value;
      assert DoJobs(reg, st1) == Ok(st2.(jobs := []));
    }
  }

  lemma {:induction false} AnyLoads(reg: Registry, n: Node, st: BuildState)
    requires Good(st) && Unique(n) && Ids(n) !! st.memo.Keys && Resolvable(n, reg)
    ensures LoadAny(reg, n, st).Ok?
    decreases Size(n), 5, 0, 0
  {
    if n.Fab? {
      var info := n.info;
      assert LoadAny(reg, n, st) == LoadFab(reg, info, st);
      KidsSmaller(info);
      assert Ids(n) == Own(info) + SeqIds(Kids(info));
      if info.TupleNode? {
        TupleLoads(reg, info, st);
      }
    }
  }

  lemma {:induction false} TupleLoads(reg: Registry, info: FabInfo, st: BuildState)
    requires info.TupleNode? && Good(st) && Unique(Fab(info)) && Ids(Fab(info)) !! st.memo.Keys
    requires Resolvable(Fab(info), reg)
    ensures LoadTuple(reg, info, st).Ok?
    decreases InfoSize(info), 3, 0, 0
  {
    var items := info.items;
    var m := info.memoId;
    TupleItemsLoad(reg, info, st);
    var st4 := LoadItems(reg, items, 0, TupleScope(info, st)).value;
    var st5 := FiniTupleJob(m, st4);
    var js := st4.jobs;
    assert js[1..] == DeferredSeq(items);
    KidsSmaller(info);
    QueueFrom(js, 1, items, InfoSize(info), |st5.metaStack|);
    FillsRun(reg, js, 1, items, st5);
    assert RunJobs(reg, js, 0, st4) == RunJobs(reg, js, 1, st5);
  }

  /** The items of a tuple load in its scope, and its finish job leaves them loaded. */
  lemma {:induction false} TupleItemsLoad(reg: Registry, info: FabInfo, st: BuildState)
    requires info.TupleNode? && Good(st) && Unique(Fab(info)) && Ids(Fab(info)) !! st.memo.Keys
    requires Resolvable(Fab(info), reg)
    ensures LoadItems(reg, info.items, 0, TupleScope(info, st)).Ok?
    ensures var st4 := LoadItems(reg, info.items, 0, TupleScope(info, st)).value;
      && |st4.metaStack| > 0 && st4.jobs == [FiniTuple(info.memoId)] + DeferredSeq(info.items)
      && var st5 := FiniTupleJob(info.memoId, st4);
      && Good(st5) && LoadedSeq(st5, info.items) && UniqueSeq(info.items) && ResolvableSeq(info.items, reg)
    decreases InfoSize(info), 2, 0, 0
  {
    var items := info.items;
    var m := info.memoId;
    KidsSmaller(info);
    assert Ids(Fab(info)) == {m} + SeqIds(items);
    var st3 := TupleScope(info, st);
    assert items[0..] == items;
    ItemsLoad(reg, items, 0, st3);
    LoadItemsOk(reg, items, 0, st3);
    var st4 := LoadItems(reg, items, 0, st3).value;
    TupleBuilt(info, st, st4, FiniTupleJob(m, st4));
  }

  lemma {:induction false} ItemsLoad(reg: Registry, items: seq<Node>, i: nat, st: BuildState)
    requires i <= |items| && Good(st) && UniqueSeq(items[i..]) && SeqIds(items[i..]) !! st.memo.Keys
    requires ResolvableSeq(items[i..], reg)
    ensures LoadItems(reg, items, i, st).Ok?
    decreases SeqSize(items[i..]), 6, 0, 0
  {
    if i < |items| {
      var ns := items[i..];
      assert ns[0] == items[i] && ns[1..] == items[i + 1..];
      AnyLoads(reg, items[i], st);
      LoadAnyOk(reg, items[i], st);
      var st1 := LoadAny(reg, items[i], st).value;
      FreshAfter(st, st1, Ids(items[i]), SeqIds(items[i + 1..]));
      ItemsLoad(reg, items, i + 1, st1);
    }
  }

  lemma {:induction false} EntriesLoad(reg: Registry, es: seq<(Literal, Node)>, i: nat, st: BuildState)
    requires i <= |es| && Good(st) && UniqueSeq(ValuesOf(es[i..])) && SeqIds(ValuesOf(es[i..])) !! st.memo.Keys
    requires ResolvableSeq(ValuesOf(es[i..]), reg)
    ensures LoadEntries(reg, es, i, st).Ok?
    decreases EntriesWeight(es, i), 6, 0, 0
  {
    var vs := ValuesOf(es[i..]);
    assert vs == ValuesOf(es)[i..];
    if i < |es| {
      assert es[i..][1..] == es[i + 1..];
      assert vs[0] == es[i].1 && vs[1..] == ValuesOf(es[i + 1..]);
      var st1 := Put(st, Lit(es[i].0));
      AnyLoads(reg, es[i].1, st1);
      LoadAnyOk(reg, es[i].1, st1);
      var st2 := LoadAny(reg, es[i].1, st1).value;
      FreshAfter(st1, st2, Ids(es[i].1), SeqIds(vs[1..]));
      EntriesLoad(reg, es, i + 1, st2);
    }
  }

  /** The fills some loaded children deferred all run. */
  lemma {:induction false} FillsRun(reg: Registry, js: seq<Job>, i: nat, ns: seq<Node>, st: BuildState)
    requires i <= |js| && js[i..] == DeferredSeq(ns) && QueueOk(js, i, |st.metaStack|)
    requires Good(st) && UniqueSeq(ns) && LoadedSeq(st, ns) && ResolvableSeq(ns, reg)
    ensures RunJobs(reg, js, i, st).Ok?
    decreases MaxFrom(js, i), 2, |js| - i, 2 * |ns| + 1
  {
    if |ns| == 0 {
      assert js[i..] == [];
    } else if ns[0].Fab? && ns[0].info.IsMutable() {
      HeadFillRuns(reg, js, i, ns, st);
    } else {
      assert DeferredSeq(ns) == DeferredSeq(ns[1..]);
      FillsRun(reg, js, i, ns[1..], st);
    }
  }

  /** The head node's fill runs first, then the fills of the nodes after it. */
  lemma {:induction false} HeadFillRuns(reg: Registry, js: seq<Job>, i: nat, ns: seq<Node>, st: BuildState)
    requires i <= |js| && js[i..] == DeferredSeq(ns) && QueueOk(js, i, |st.metaStack|)
    requires Good(st) && UniqueSeq(ns) && LoadedSeq(st, ns) && ResolvableSeq(ns, reg)
    requires |ns| > 0 && ns[0].Fab? && ns[0].info.IsMutable()
    ensures RunJobs(reg, js, i, st).Ok?
    decreases MaxFrom(js, i), 2, |js| - i, 2 * |ns|
  {
    var X := ns[0].info;
    assert SeqIds(ns) == Ids(ns[0]) + SeqIds(ns[1..]);
    KidsSmaller(X);
    assert Ids(ns[0]) == {X.memoId} + SeqIds(Kids(X));
    FillHead(js, i, ns);
    FillDone(reg, X, st, ns[1..]);
    FillsRun(reg, js, i + 1, ns[1..], RunJob(reg, Fill(X), st).value);
  }

  /** The fill a list, dict or instance node defers heads the queue its nodes defer. */
  lemma FillHead(js: seq<Job>, i: nat, ns: seq<Node>)
    requires i <= |js| && js[i..] == DeferredSeq(ns) && |ns| > 0 && ns[0].Fab? && ns[0].info.IsMutable()
    ensures i < |js| && js[i] == Fill(ns[0].info) && js[i + 1..] == DeferredSeq(ns[1..])
  {
    assert DeferredSeq(ns) == [Fill(ns[0].info)] + DeferredSeq(ns[1..]);
    assert js[i] == js[i..][0];
    assert js[i + 1..] == js[i..][1..];
  }

  /** A fill runs, and leaves the nodes queued after it loaded. */
  lemma {:induction false} FillDone(reg: Registry, X: FabInfo, st: BuildState, rest: seq<Node>)
    requires Good(st) && Placeholder(st, X) && UniqueSeq(Kids(X)) && SeqIds(Kids(X)) !! st.memo.Keys
    requires ResolvableSeq(Kids(X), reg)
    requires LoadedSeq(st, rest) && SeqIds(rest) !! {X.memoId} && SeqIds(rest) !! SeqIds(Kids(X))
    ensures RunJob(reg, Fill(X), st).Ok?
    ensures var st1 := RunJob(reg, Fill(X), st).value;
      Good(st1) && LoadedSeq(st1, rest) && st1.metaStack == st.metaStack
    decreases InfoSize(X), 1, 1, 0
  {
    FillRuns(reg, X, st);
    FillOk(reg, X, st);
    LoadedSeqStable(st, RunJob(reg, Fill(X), st).value, rest, {X.memoId}, SeqIds(Kids(X)));
  }

  /** A fill finds its placeholder untouched by its children's loads, so the list extends
      and the pairs assign. */
  lemma {:induction false} FillRuns(reg: Registry, X: FabInfo, st: BuildState)
    requires Good(st) && Placeholder(st, X) && UniqueSeq(Kids(X)) && SeqIds(Kids(X)) !! st.memo.Keys
    requires ResolvableSeq(Kids(X), reg)
    ensures RunJob(reg, Fill(X), st).Ok?
    decreases InfoSize(X), 1, 0, 0
  {
    ScopedKeeps(reg, X, st);
    if X.ListNode? {
      ListFills(reg, X, st);
    } else {
      MappingFills(reg, X, st);
    }
  }

  /** The children of a placeholder load in scope and leave it as it was. */
  lemma {:induction false} ScopedKeeps(reg: Registry, X: FabInfo, st: BuildState)
    requires Good(st) && Placeholder(st, X) && UniqueSeq(Kids(X)) && SeqIds(Kids(X)) !! st.memo.Keys
    requires ResolvableSeq(Kids(X), reg)
    ensures LoadScoped(reg, X, st).Ok?
    ensures var st1 := LoadScoped(reg, X, st).value; var a := st.memo[X.memoId].id;
      a < |st1.heap| && st1.heap[a] == EmptyOf(X) && Pushed(X, st1)
    decreases InfoSize(X), 0, 2, 0
  {
    ScopedRuns(reg, X, st);
    LoadScopedOk(reg, X, st);
    KeepsNone(st, LoadScoped(reg, X, st).value);
  }

  /** `fini_list` extends its still empty list. */
  lemma ListFills(reg: Registry, X: FabInfo, st: BuildState)
    requires X.ListNode? && Placeholder(st, X) && LoadScoped(reg, X, st).Ok?
    requires var st1 := LoadScoped(reg, X, st).value; var a := st.memo[X.memoId].id;
      a < |st1.heap| && st1.heap[a] == EmptyOf(X)
    ensures RunJob(reg, Fill(X), st).Ok?
  {
    assert Target(X, st) == Ok(Obj(st.memo[X.memoId].id));
    assert RunJob(reg, Fill(X), st) == FiniList(reg, X, st);
  }

  /** `fini_dict` and `fini_class_instance` assign each key of the accumulator into their
      still empty dict or instance. */
  lemma MappingFills(reg: Registry, X: FabInfo, st: BuildState)
    requires (X.DictNode? || X.InstanceNode?) && Placeholder(st, X) && LoadScoped(reg, X, st).Ok?
    requires var st1 := LoadScoped(reg, X, st).value; var a := st.memo[X.memoId].id;
      a < |st1.heap| && st1.heap[a] == EmptyOf(X) && Pushed(X, st1)
    ensures RunJob(reg, Fill(X), st).Ok?
  {
    var a := st.memo[X.memoId].id;
    var st1 := LoadScoped(reg, X, st).value;
    assert Target(X, st) == Ok(Obj(a));
    assert RunJob(reg, Fill(X), st) == FiniMapping(reg, X, st);
    MappingFilled(X, st1.memo);
    assert AssignPairs(X, st1.heap[a], st1.stack).Ok?;
  }

  lemma {:induction false} ScopedRuns(reg: Registry, X: FabInfo, st: BuildState)
    requires X.IsMutable() && Good(st) && UniqueSeq(Kids(X)) && SeqIds(Kids(X)) !! st.memo.Keys
    requires ResolvableSeq(Kids(X), reg)
    ensures LoadScoped(reg, X, st).Ok?
    decreases InfoSize(X), 0, 1, 0
  {
    var st1 := PushJobs(PushContext(st));
    KidsLoaded(reg, X, st1);
    var st2 := LoadKids(reg, X, st1).value;
    FillsRun(reg, st2.jobs, 0, Kids(X), st2);
  }

  /** The children load, and stay loaded until their fills run. */
  lemma {:induction false} KidsLoaded(reg: Registry, X: FabInfo, st: BuildState)
    requires X.IsMutable() && st.jobs == [] && Good(st) && UniqueSeq(Kids(X)) && SeqIds(Kids(X)) !! st.memo.Keys
    requires ResolvableSeq(Kids(X), reg)
    ensures LoadKids(reg, X, st).Ok?
    ensures var st' := LoadKids(reg, X, st).value;
      && Good(st') && LoadedSeq(st', Kids(X))
      && st'.jobs[0..] == DeferredSeq(Kids(X)) && QueueOk(st'.jobs, 0, |st'.metaStack|)
      && MaxFrom(st'.jobs, 0) < InfoSize(X)
    decreases InfoSize(X), 0, 0, 1
  {
    KidsLoad(reg, X, st);
    LoadKidsOk(reg, X, st);
    var st' := LoadKids(reg, X, st).value;
    ChildWeight(X);
    FreshQueue(st'.jobs, Kids(X), InfoSize(X), |st'.metaStack|);
    assert st'.jobs[0..] == st'.jobs;
  }

  lemma {:induction false} KidsLoad(reg: Registry, X: FabInfo, st: BuildState)
    requires X.IsMutable() && Good(st) && UniqueSeq(Kids(X)) && SeqIds(Kids(X)) !! st.memo.Keys
    requires ResolvableSeq(Kids(X), reg)
    ensures LoadKids(reg, X, st).Ok?
    decreases InfoSize(X), 0, 0, 0
  {
    ChildWeight(X);
    KidsSmaller(X);
    if X.ListNode? {
      assert X.items[0..] == X.items;
      ItemsLoad(reg, X.items, 0, st);
    } else {
      assert X.entries[0..] == X.entries;
      EntriesLoad(reg, X.entries, 0, st);
    }
  }
}
