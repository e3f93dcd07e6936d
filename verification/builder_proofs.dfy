/** What the builder computes: when a load succeeds on a tree that introduces no memo id
    twice, every introduced memo id ends up bound to a distinct new object that its node
    describes, the root is the value the tree stands for, and no object that existed
    before the load is touched. */
module BuilderProofs {
  import opened Results
  import opened Values
  import opened Nodes
  import opened Decoding
  import opened Builder

  /** Every memo entry is a distinct heap object. */
  predicate Good(st: BuildState) {
    && (forall m :: m in st.memo ==> st.memo[m].Obj? && st.memo[m].id < |st.heap|)
    && (forall m1, m2 :: m1 in st.memo && m2 in st.memo && m1 != m2 ==> st.memo[m1] != st.memo[m2])
  }

  /** `st'` keeps the memo of `st` and binds besides only ids of `ids`, each to a new object. */
  predicate Grows(st: BuildState, st': BuildState, ids: set<nat>) {
    && Extends(st.memo, st'.memo)
    && (forall m :: m in st'.memo && m !in st.memo ==> m in ids && st'.memo[m].Obj? && st'.memo[m].id >= |st.heap|)
  }

  /** The objects bound to the given memo ids. */
  ghost function Holes(M: Bindings, ids: set<nat>): set<ObjId> {
    set m | m in ids && m in M && M[m].Obj? :: M[m].id
  }

  /** `st'` holds every object of `st` unchanged, except those bound to `ids`. */
  ghost predicate Keeps(st: BuildState, st': BuildState, ids: set<nat>) {
    |st.heap| <= |st'.heap| && forall a :: 0 <= a < |st.heap| && a !in Holes(st.memo, ids) ==> st'.heap[a] == st.heap[a]
  }

  /** The memo id of a list, dict or instance node is bound to its still empty placeholder. */
  predicate Placeholder(st: BuildState, info: FabInfo) {
    && info.IsMutable() && info.memoId in st.memo && st.memo[info.memoId].Obj?
    && st.memo[info.memoId].id < |st.heap| && st.heap[st.memo[info.memoId].id] == EmptyOf(info)
  }

  /** What loading a node leaves before the queued jobs run: a placeholder whose children
      are still to be loaded, or a finished tuple. */
  ghost predicate Loaded(st: BuildState, n: Node) {
    && (n.Fab? && n.info.IsMutable() ==> Placeholder(st, n.info) && SeqIds(Kids(n.info)) !! st.memo.Keys)
    && (n.Fab? && n.info.TupleNode? ==> AllDescribed(st.heap, st.memo, n))
  }

  ghost predicate LoadedSeq(st: BuildState, ns: seq<Node>)
    decreases |ns|
  {
    |ns| == 0 || (Loaded(st, ns[0]) && LoadedSeq(st, ns[1..]))
  }

  /** The memo ids of the list, dict and instance nodes of a sequence. */
  function MutIds(ns: seq<Node>): set<nat>
    decreases |ns|
  {
    if |ns| == 0 then {}
    else (if ns[0].Fab? && ns[0].info.IsMutable() then {ns[0].info.memoId} else {}) + MutIds(ns[1..])
  }

  lemma {:induction false} MutIdsIn(ns: seq<Node>)
    ensures MutIds(ns) <= SeqIds(ns)
    decreases |ns|
  {
    if |ns| > 0 {
      MutIdsIn(ns[1..]);
    }
  }

  lemma GrowsChain(s1: BuildState, s2: BuildState, s3: BuildState, A: set<nat>, B: set<nat>, C: set<nat>)
    requires Grows(s1, s2, A) && Grows(s2, s3, B) && |s1.heap| <= |s2.heap| && A + B <= C
    ensures Grows(s1, s3, C)
  {
  }

  lemma KeepsChain(s1: BuildState, s2: BuildState, s3: BuildState, A: set<nat>, B: set<nat>, G: set<nat>, C: set<nat>)
    requires Keeps(s1, s2, A) && Keeps(s2, s3, B) && Grows(s1, s2, G) && A + B <= C
    ensures Keeps(s1, s3, C)
  {
    assert Holes(s1.memo, A) <= Holes(s1.memo, C);
    forall a | 0 <= a < |s1.heap| && a !in Holes(s1.memo, C)
      ensures s3.heap[a] == s1.heap[a]
    {
      forall m | m in B && m in s2.memo && s2.memo[m].Obj?
        ensures s2.memo[m].id != a
      {
        if m in s1.memo {
          assert s1.memo[m].id in Holes(s1.memo, C);
        }
      }
    }
  }

  /** Holes bound to ids the memo does not know yet are no old objects. */
  lemma KeepsUnbound(st: BuildState, st': BuildState, ids: set<nat>)
    requires Keeps(st, st', ids) && ids !! st.memo.Keys
    ensures Keeps(st, st', {})
  {
    assert Holes(st.memo, ids) == {};
  }

  /** An object bound to an id outside `ids` is none of their holes. */
  lemma NotHole(st: BuildState, ids: set<nat>, m: nat)
    requires Good(st) && m in st.memo && m !in ids
    ensures st.memo[m].id !in Holes(st.memo, ids)
  {
    forall m' | m' in ids && m' in st.memo && st.memo[m'].Obj?
      ensures st.memo[m'].id != st.memo[m].id
    {
      assert m' != m;
    }
  }

  lemma KeepsAgree(st: BuildState, st': BuildState, ids: set<nat>, S: set<nat>)
    requires Good(st) && Keeps(st, st', ids) && S !! ids
    ensures Agree(st.heap, st'.heap, st.memo, S)
  {
    forall m | m in S && m in st.memo && st.memo[m].Obj? && st.memo[m].id < |st.heap|
      ensures st.memo[m].id < |st'.heap| && st'.heap[st.memo[m].id] == st.heap[st.memo[m].id]
    {
      NotHole(st, ids, m);
    }
  }

  lemma FreshAfter(st: BuildState, st': BuildState, G: set<nat>, S: set<nat>)
    requires Grows(st, st', G) && S !! st.memo.Keys && S !! G
    ensures S !! st'.memo.Keys
  {
  }

  lemma {:induction false} LoadedStable(st: BuildState, st': BuildState, n: Node, H: set<nat>, G: set<nat>)
    requires Good(st) && Loaded(st, n) && Keeps(st, st', H) && Grows(st, st', G)
    requires Ids(n) !! H && Ids(n) !! G
    ensures Loaded(st', n)
  {
    if n.Fab? && n.info.IsMutable() {
      var X := n.info;
      assert Ids(n) == Own(X) + SeqIds(Kids(X));
      NotHole(st, H, X.memoId);
      FreshAfter(st, st', G, SeqIds(Kids(X)));
    }
    if n.Fab? && n.info.TupleNode? {
      KeepsAgree(st, st', H, Ids(n));
      DescribedStable(st.heap, st'.heap, st.memo, st'.memo, n);
    }
  }

  lemma {:induction false} LoadedSeqStable(st: BuildState, st': BuildState, ns: seq<Node>, H: set<nat>, G: set<nat>)
    requires Good(st) && LoadedSeq(st, ns) && Keeps(st, st', H) && Grows(st, st', G)
    requires SeqIds(ns) !! H && SeqIds(ns) !! G
    ensures LoadedSeq(st', ns)
    decreases |ns|
  {
    if |ns| > 0 {
      LoadedStable(st, st', ns[0], H, G);
      LoadedSeqStable(st, st', ns[1..], H, G);
    }
  }

  /** The queue some children defer holds only fills, each lighter than the children. */
  lemma QueueFrom(js: seq<Job>, i: nat, ns: seq<Node>, bound: nat, contexts: nat)
    requires i <= |js| && js[i..] == DeferredSeq(ns) && SeqSize(ns) < bound
    ensures QueueOk(js, i, contexts) && MaxFrom(js, i) < bound
    ensures forall k :: i <= k < |js| ==> js[k].Fill?
  {
    DeferredBound(ns);
    assert forall k :: i <= k < |js| ==> js[k] == js[i..][k - i];
  }

  /** `load_any` pushes the value the node stands for; a list, dict or instance is left as
      a bound placeholder and a tuple is finished with everything beneath it. */
  lemma {:induction false} LoadAnyOk(reg: Registry, n: Node, st: BuildState)
    requires Good(st) && Unique(n) && Ids(n) !! st.memo.Keys
    requires LoadAny(reg, n, st).Ok?
    ensures var st' := LoadAny(reg, n, st).value;
      && Good(st') && Grows(st, st', Ids(n)) && Keeps(st, st', {})
      && Binds(n, st'.memo) && st'.stack == st.stack + [Val(n, st'.memo)] && Loaded(st', n)
    decreases Size(n), 5, 0, 0
  {
    if n.Fab? {
      var info := n.info;
      assert LoadAny(reg, n, st) == LoadFab(reg, info, st);
      KidsSmaller(info);
      assert Ids(n) == Own(info) + SeqIds(Kids(info));
      if info.TupleNode? {
        LoadTupleOk(reg, info, st);
      } else if info.IsMutable() {
        assert LoadFab(reg, info, st) == LoadPlaceholder(info, st);
      }
    }
  }

  /** `load_tuple`: the finish job builds the tuple from the item values and binds it; the
      fills that follow complete every list, dict and instance beneath it. */
  lemma {:induction false} LoadTupleOk(reg: Registry, info: FabInfo, st: BuildState)
    requires info.TupleNode? && Good(st) && Unique(Fab(info)) && Ids(Fab(info)) !! st.memo.Keys
    requires LoadTuple(reg, info, st).Ok?
    ensures var st' := LoadTuple(reg, info, st).value;
      && Good(st') && Grows(st, st', Ids(Fab(info))) && Keeps(st, st', {})
      && info.memoId in st'.memo && st'.stack == st.stack + [st'.memo[info.memoId]]
      && AllDescribed(st'.heap, st'.memo, Fab(info))
    decreases InfoSize(info), 3, 0, 0
  {
    var items := info.items;
    var m := info.memoId;
    TupleUnfold(reg, info, st);
    var st3 := TupleScope(info, st);
    assert items[0..] == items;
    LoadItemsOk(reg, items, 0, st3);
    var st4 := LoadItems(reg, items, 0, st3).value;
    var st5 := FiniTupleJob(m, st4);
    TupleBuilt(info, st, st4, st5);
    var js := st4.jobs;
    RunFillsOk(reg, js, 1, items, st5);
    TupleDone(info, st, st5, RunJobs(reg, js, 1, st5).value, LoadTuple(reg, info, st).value);
  }

  /** A tuple node loads by loading its items in its own scope and running the queue that
      leaves. */
  lemma TupleLoadSteps(reg: Registry, info: FabInfo, st: BuildState, st5: BuildState)
    requires info.TupleNode? && LoadItems(reg, info.items, 0, TupleScope(info, st)).Ok?
    requires var st4 := LoadItems(reg, info.items, 0, TupleScope(info, st)).value;
      QueueOk(st4.jobs, 0, |st4.metaStack|) && DoJobs(reg, st4) == Ok(st5)
    ensures LoadAny(reg, Fab(info), st) == Ok(PopJobs(st5))
  {
    assert info.items[0..] == info.items;
    assert LoadTuple(reg, info, st) == Ok(PopJobs(st5));
    assert LoadAny(reg, Fab(info), st) == LoadFab(reg, info, st) == LoadTuple(reg, info, st);
  }

  /** The state `load_tuple` loads the items in: a fresh job queue holding the finish job,
      and a fresh context. */
  function TupleScope(info: FabInfo, st: BuildState): BuildState
    requires info.TupleNode?
  {
    PushContext(PushJobs(st).(jobs := [FiniTuple(info.memoId)]))
  }

  /** A tuple load that succeeds loads the items, runs the finish job, and then the items'
      fills. */
  lemma TupleUnfold(reg: Registry, info: FabInfo, st: BuildState)
    requires info.TupleNode? && LoadTuple(reg, info, st).Ok?
    ensures LoadItems(reg, info.items, 0, TupleScope(info, st)).Ok?
    ensures var st4 := LoadItems(reg, info.items, 0, TupleScope(info, st)).value;
      && |st4.metaStack| > 0 && st4.jobs == [FiniTuple(info.memoId)] + DeferredSeq(info.items)
      && var st5 := FiniTupleJob(info.memoId, st4);
      && QueueOk(st4.jobs, 1, |st5.metaStack|) && st4.jobs[1..] == DeferredSeq(info.items)
      && MaxFrom(st4.jobs, 1) < InfoSize(info)
      && RunJobs(reg, st4.jobs, 1, st5).Ok?
      && LoadTuple(reg, info, st).value == PopJobs(RunJobs(reg, st4.jobs, 1, st5).value.(jobs := []))
  {
    var items := info.items;
    var m := info.memoId;
    var st3 := TupleScope(info, st);
    assert items[0..] == items;
    var st4 := LoadItems(reg, items, 0, st3).value;
    var js := st4.jobs;
    assert js[1..] == DeferredSeq(items);
    KidsSmaller(info);
    QueueFrom(js, 1, items, InfoSize(info), |st4.metaStack| - 1);
    var st5 := FiniTupleJob(m, st4);
    assert RunJobs(reg, js, 0, st4) == RunJobs(reg, js, 1, st5);
  }

  /** The finish job binds the tuple's memo id to a new tuple of the item values, which
      the fills that follow leave alone. */
  lemma TupleBuilt(info: FabInfo, st: BuildState, st4: BuildState, st5: BuildState)
    requires info.TupleNode? && Good(st) && Unique(Fab(info)) && Ids(Fab(info)) !! st.memo.Keys
    requires var st3 := TupleScope(info, st);
      && Good(st4) && Grows(st3, st4, SeqIds(info.items)) && Keeps(st3, st4, {})
      && BindsAll(info.items, st4.memo) && st4.stack == st3.stack + Vals(info.items, st4.memo)
      && LoadedSeq(st4, info.items) && st4.metaStack == st3.metaStack
    requires st5 == FiniTupleJob(info.memoId, st4)
    ensures Good(st5) && Grows(st, st5, Ids(Fab(info))) && Keeps(st, st5, {})
    ensures Described(st5.heap, st5.memo, info) && LoadedSeq(st5, info.items)
    ensures info.memoId in st5.memo && st5.stack == st.stack + [st5.memo[info.memoId]]
    ensures st5.metaStack == st.metaStack && |st.heap| <= |st5.heap|
  {
    var items := info.items;
    var m := info.memoId;
    var st3 := TupleScope(info, st);
    assert st3.memo == st.memo && st3.heap == st.heap && st3.metaStack == st.metaStack + [st.stack];
    KidsSmaller(info);
    assert Ids(Fab(info)) == {m} + SeqIds(items);
    assert m !in st4.memo;
    FinishStep(st4, st5, m);
    TupleDescribed(info, st4, st5);
    LoadedSeqStable(st4, st5, items, {}, {m});
    ChainKeeps(st, st4, st5, SeqIds(items), {m}, Ids(Fab(info)));
  }

  /** Two steps that each keep every existing object keep them together. */
  lemma ChainKeeps(s1: BuildState, s2: BuildState, s3: BuildState, A: set<nat>, B: set<nat>, C: set<nat>)
    requires Grows(s1, s2, A) && Keeps(s1, s2, {}) && Grows(s2, s3, B) && Keeps(s2, s3, {}) && A + B <= C
    ensures Grows(s1, s3, C) && Keeps(s1, s3, {})
  {
    GrowsChain(s1, s2, s3, A, B, C);
    KeepsChain(s1, s2, s3, {}, {}, A, {});
  }

  /** `fini_tuple` allocates a new object and binds a new memo id to it. */
  lemma FinishStep(st4: BuildState, st5: BuildState, m: nat)
    requires Good(st4) && m !in st4.memo && |st4.metaStack| > 0 && st5 == FiniTupleJob(m, st4)
    ensures Good(st5) && Grows(st4, st5, {m}) && Keeps(st4, st5, {}) && |st4.heap| < |st5.heap|
  {
    assert Holes(st4.memo, {}) == {};
  }

  /** The tuple `fini_tuple` builds holds the item values. */
  lemma TupleDescribed(info: FabInfo, st4: BuildState, st5: BuildState)
    requires info.TupleNode? && info.memoId !in st4.memo && BindsAll(info.items, st4.memo) && |st4.metaStack| > 0
    requires st4.stack == Vals(info.items, st4.memo) && st5 == FiniTupleJob(info.memoId, st4)
    ensures Described(st5.heap, st5.memo, info)
  {
    ExpectedStable(info, st4.memo, st5.memo);
  }

  /** The items' fills leave the finished tuple as it was. */
  lemma TupleDone(info: FabInfo, st: BuildState, st5: BuildState, st6: BuildState, st': BuildState)
    requires info.TupleNode? && Unique(Fab(info)) && Ids(Fab(info)) !! st.memo.Keys
    requires Good(st5) && Grows(st, st5, Ids(Fab(info))) && Keeps(st, st5, {}) && |st.heap| <= |st5.heap|
    requires Described(st5.heap, st5.memo, info)
    requires Good(st6) && Grows(st5, st6, SeqIds(info.items)) && Keeps(st5, st6, MutIds(info.items))
    requires AllDescribedSeq(st6.heap, st6.memo, info.items)
    requires st'.heap == st6.heap && st'.memo == st6.memo
    ensures Good(st') && Grows(st, st', Ids(Fab(info))) && Keeps(st, st', {})
    ensures AllDescribed(st'.heap, st'.memo, Fab(info))
  {
    var items := info.items;
    KidsSmaller(info);
    assert Ids(Fab(info)) == {info.memoId} + SeqIds(items);
    MutIdsIn(items);
    KeepsAgree(st5, st6, MutIds(items), {info.memoId});
    OneDescribedStable(st5.heap, st6.heap, st5.memo, st6.memo, info);
    GrowsChain(st, st5, st6, Ids(Fab(info)), SeqIds(items), Ids(Fab(info)));
    KeepsChain(st, st5, st6, {}, MutIds(items), Ids(Fab(info)), MutIds(items));
    KeepsUnbound(st, st6, MutIds(items));
  }

  /** The item loop: the item values are pushed in order. */
  lemma {:induction false} LoadItemsOk(reg: Registry, items: seq<Node>, i: nat, st: BuildState)
    requires i <= |items| && Good(st) && UniqueSeq(items[i..]) && SeqIds(items[i..]) !! st.memo.Keys
    requires LoadItems(reg, items, i, st).Ok?
    ensures var st' := LoadItems(reg, items, i, st).value;
      && Good(st') && Grows(st, st', SeqIds(items[i..])) && Keeps(st, st', {})
      && BindsAll(items[i..], st'.memo) && st'.stack == st.stack + Vals(items[i..], st'.memo)
      && LoadedSeq(st', items[i..])
    decreases SeqSize(items[i..]), 6, 0, 0
  {
    var ns := items[i..];
    if i == |items| {
      assert ns == [];
    } else {
      assert ns[0] == items[i] && ns[1..] == items[i + 1..];
      assert LoadItems(reg, items, i, st) == LoadItems(reg, items, i + 1, LoadAny(reg, items[i], st).value);
      var st1 := LoadAny(reg, items[i], st).value;
      LoadAnyOk(reg, items[i], st);
      FreshAfter(st, st1, Ids(items[i]), SeqIds(items[i + 1..]));
      LoadItemsOk(reg, items, i + 1, st1);
      ItemsStep(ns, st, st1, LoadItems(reg, items, i + 1, st1).value);
    }
  }

  /** What loading the first item and then the rest leaves is what loading them all should. */
  lemma ItemsStep(ns: seq<Node>, st: BuildState, st1: BuildState, st': BuildState)
    requires |ns| > 0 && Good(st) && UniqueSeq(ns) && SeqIds(ns) !! st.memo.Keys
    requires Good(st1) && Grows(st, st1, Ids(ns[0])) && Keeps(st, st1, {})
    requires Binds(ns[0], st1.memo) && st1.stack == st.stack + [Val(ns[0], st1.memo)] && Loaded(st1, ns[0])
    requires Good(st') && Grows(st1, st', SeqIds(ns[1..])) && Keeps(st1, st', {})
    requires BindsAll(ns[1..], st'.memo) && st'.stack == st1.stack + Vals(ns[1..], st'.memo) && LoadedSeq(st', ns[1..])
    ensures Grows(st, st', SeqIds(ns)) && Keeps(st, st', {}) && LoadedSeq(st', ns)
    ensures BindsAll(ns, st'.memo) && st'.stack == st.stack + Vals(ns, st'.memo)
  {
    SeqStep(ns, st, st1, st');
    ValStable(ns[0], st1.memo, st'.memo);
    assert st'.stack == st.stack + Vals(ns, st'.memo) by {
      ValsCons(ns, st'.memo);
      PushOne(st.stack, Val(ns[0], st'.memo), Vals(ns[1..], st'.memo));
    }
  }

  lemma PushOne(s: seq<Value>, x: Value, rest: seq<Value>)
    ensures s + [x] + rest == s + ([x] + rest)
  {
  }

  /** Loading the first node and then the rest grows and keeps as loading them all should. */
  lemma SeqStep(ns: seq<Node>, st: BuildState, st1: BuildState, st': BuildState)
    requires |ns| > 0 && Good(st) && UniqueSeq(ns) && SeqIds(ns) !! st.memo.Keys
    requires Good(st1) && Grows(st, st1, Ids(ns[0])) && Keeps(st, st1, {}) && Loaded(st1, ns[0])
    requires Good(st') && Grows(st1, st', SeqIds(ns[1..])) && Keeps(st1, st', {}) && LoadedSeq(st', ns[1..])
    ensures Grows(st, st', SeqIds(ns)) && Keeps(st, st', {}) && LoadedSeq(st', ns)
  {
    assert SeqIds(ns) == Ids(ns[0]) + SeqIds(ns[1..]);
    assert LoadedSeq(st', ns) by {
      LoadedStable(st1, st', ns[0], {}, SeqIds(ns[1..]));
    }
    assert Grows(st, st', SeqIds(ns)) by {
      GrowsChain(st, st1, st', Ids(ns[0]), SeqIds(ns[1..]), SeqIds(ns));
    }
    KeepsChain(st, st1, st', {}, {}, Ids(ns[0]), {});
  }

  /** The key/value loop: each key then its value's value is pushed, in entry order. */
  lemma {:induction false} LoadEntriesOk(reg: Registry, es: seq<(Literal, Node)>, i: nat, st: BuildState)
    requires i <= |es| && Good(st) && UniqueSeq(ValuesOf(es[i..])) && SeqIds(ValuesOf(es[i..])) !! st.memo.Keys
    requires LoadEntries(reg, es, i, st).Ok?
    ensures var st' := LoadEntries(reg, es, i, st).value;
      && Good(st') && Grows(st, st', SeqIds(ValuesOf(es[i..]))) && Keeps(st, st', {})
      && BindsAll(ValuesOf(es[i..]), st'.memo)
      && st'.stack == st.stack + Interleave(PairVals(es[i..], st'.memo), LitOf)
      && LoadedSeq(st', ValuesOf(es[i..]))
    decreases EntriesWeight(es, i), 6, 0, 0
  {
    var vs := ValuesOf(es[i..]);
    assert vs == ValuesOf(es)[i..];
    if i == |es| {
      assert vs == [];
    } else {
      assert es[i..][1..] == es[i + 1..];
      assert vs[0] == es[i].1 && vs[1..] == ValuesOf(es[i + 1..]);
      var st1 := Put(st, Lit(es[i].0));
      EntriesUnfold(reg, es, i, st);
      var st2 := LoadAny(reg, es[i].1, st1).value;
      LoadAnyOk(reg, es[i].1, st1);
      FreshAfter(st1, st2, Ids(es[i].1), SeqIds(vs[1..]));
      LoadEntriesOk(reg, es, i + 1, st2);
      EntriesStep(es[i..], st, st1, st2, LoadEntries(reg, es, i + 1, st2).value);
    }
  }

  lemma EntriesUnfold(reg: Registry, es: seq<(Literal, Node)>, i: nat, st: BuildState)
    requires i < |es| && LoadEntries(reg, es, i, st).Ok?
    ensures LoadAny(reg, es[i].1, Put(st, Lit(es[i].0))).Ok?
    ensures var st2 := LoadAny(reg, es[i].1, Put(st, Lit(es[i].0))).value;
      LoadEntries(reg, es, i, st) == LoadEntries(reg, es, i + 1, st2)
  {
  }

  /** What loading the first key and value and then the rest leaves is what loading them
      all should. */
  lemma EntriesStep(es: seq<(Literal, Node)>, st: BuildState, st1: BuildState, st2: BuildState, st': BuildState)
    requires |es| > 0 && Good(st) && UniqueSeq(ValuesOf(es)) && SeqIds(ValuesOf(es)) !! st.memo.Keys
    requires st1 == Put(st, Lit(es[0].0))
    requires var n := es[0].1;
      && Good(st2) && Grows(st1, st2, Ids(n)) && Keeps(st1, st2, {})
      && Binds(n, st2.memo) && st2.stack == st1.stack + [Val(n, st2.memo)] && Loaded(st2, n)
    requires Good(st') && Grows(st2, st', SeqIds(ValuesOf(es[1..]))) && Keeps(st2, st', {})
    requires BindsAll(ValuesOf(es[1..]), st'.memo) && LoadedSeq(st', ValuesOf(es[1..]))
    requires st'.stack == st2.stack + Interleave(PairVals(es[1..], st'.memo), LitOf)
    ensures Grows(st, st', SeqIds(ValuesOf(es))) && Keeps(st, st', {})
    ensures BindsAll(ValuesOf(es), st'.memo) && LoadedSeq(st', ValuesOf(es))
    ensures st'.stack == st.stack + Interleave(PairVals(es, st'.memo), LitOf)
  {
    EntriesGrow(es, st, st1, st2, st');
    EntriesStack(es, st.stack, st2.memo, st2.stack, st'.memo, st'.stack);
  }

  /** The first value's load and then the rest's register the values' ids, in order. */
  lemma EntriesGrow(es: seq<(Literal, Node)>, st: BuildState, st1: BuildState, st2: BuildState, st': BuildState)
    requires |es| > 0 && Good(st) && UniqueSeq(ValuesOf(es)) && SeqIds(ValuesOf(es)) !! st.memo.Keys
    requires st1 == Put(st, Lit(es[0].0))
    requires Good(st2) && Grows(st1, st2, Ids(es[0].1)) && Keeps(st1, st2, {}) && Loaded(st2, es[0].1)
    requires Good(st') && Grows(st2, st', SeqIds(ValuesOf(es[1..]))) && Keeps(st2, st', {})
    requires LoadedSeq(st', ValuesOf(es[1..]))
    ensures Grows(st, st', SeqIds(ValuesOf(es))) && Keeps(st, st', {}) && LoadedSeq(st', ValuesOf(es))
  {
    var vs := ValuesOf(es);
    var n := es[0].1;
    assert vs[0] == n && vs[1..] == ValuesOf(es[1..]);
    assert Grows(st, st2, Ids(n)) && Keeps(st, st2, {});
    SeqStep(vs, st, st2, st');
  }

  /** The key's value and the first value's value, ahead of the rest's. */
  lemma EntriesStack(es: seq<(Literal, Node)>, s: seq<Value>, M2: Bindings, s2: seq<Value>, M': Bindings, s': seq<Value>)
    requires |es| > 0 && Binds(es[0].1, M2) && s2 == s + [Lit(es[0].0)] + [Val(es[0].1, M2)]
    requires Extends(M2, M') && BindsAll(ValuesOf(es[1..]), M')
    requires s' == s2 + Interleave(PairVals(es[1..], M'), LitOf)
    ensures BindsAll(ValuesOf(es), M') && s' == s + Interleave(PairVals(es, M'), LitOf)
  {
    var n := es[0].1;
    ValStable(n, M2, M');
    assert BindsAll(ValuesOf(es), M') by {
      assert forall k :: 1 <= k < |es| ==> ValuesOf(es)[k] == ValuesOf(es[1..])[k - 1];
    }
    PairValsCons(es, M');
    PushTwo(s, Lit(es[0].0), Val(n, M'), Interleave(PairVals(es[1..], M'), LitOf));
  }

  lemma PushTwo(s: seq<Value>, x: Value, y: Value, rest: seq<Value>)
    ensures s + [x] + [y] + rest == s + ([x, y] + rest)
  {
  }

  /** Running the fills some children deferred finishes every one of them. */
  lemma {:induction false} RunFillsOk(reg: Registry, js: seq<Job>, i: nat, ns: seq<Node>, st: BuildState)
    requires i <= |js| && js[i..] == DeferredSeq(ns) && QueueOk(js, i, |st.metaStack|)
    requires Good(st) && UniqueSeq(ns) && LoadedSeq(st, ns)
    requires RunJobs(reg, js, i, st).Ok?
    ensures var st' := RunJobs(reg, js, i, st).value;
      && Good(st') && Grows(st, st', SeqIds(ns)) && Keeps(st, st', MutIds(ns))
      && AllDescribedSeq(st'.heap, st'.memo, ns)
    decreases MaxFrom(js, i), 2, |js| - i, |ns|
  {
    var st' := RunJobs(reg, js, i, st).value;
    if |ns| == 0 {
      assert js[i..] == [];
    } else {
      var n := ns[0];
      assert SeqIds(ns) == Ids(n) + SeqIds(ns[1..]);
      if n.Fab? && n.info.IsMutable() {
        var X := n.info;
        KidsSmaller(X);
        assert Ids(n) == {X.memoId} + SeqIds(Kids(X));
        assert DeferredSeq(ns) == [Fill(X)] + DeferredSeq(ns[1..]);
        assert js[i] == js[i..][0] == Fill(X);
        assert js[i + 1..] == js[i..][1..] == DeferredSeq(ns[1..]);
        var st1 := RunJob(reg, Fill(X), st).value;
        FillOk(reg, X, st);
        LoadedSeqStable(st, st1, ns[1..], {X.memoId}, SeqIds(Kids(X)));
        assert st' == RunJobs(reg, js, i + 1, st1).value;
        RunFillsOk(reg, js, i + 1, ns[1..], st1);
        MutIdsIn(ns[1..]);
        KeepsAgree(st1, st', MutIds(ns[1..]), Ids(n));
        DescribedStable(st1.heap, st'.heap, st1.memo, st'.memo, n);
        GrowsChain(st, st1, st', SeqIds(Kids(X)), SeqIds(ns[1..]), SeqIds(ns));
        KeepsChain(st, st1, st', {X.memoId}, MutIds(ns[1..]), SeqIds(Kids(X)), MutIds(ns));
      } else {
        assert DeferredSeq(ns) == DeferredSeq(ns[1..]);
        RunFillsOk(reg, js, i, ns[1..], st);
        MutIdsIn(ns[1..]);
        if n.Fab? && n.info.TupleNode? {
          KeepsAgree(st, st', MutIds(ns[1..]), Ids(n));
          DescribedStable(st.heap, st'.heap, st.memo, st'.memo, n);
        }
      }
    }
  }

  /** `fini_list`, `fini_dict`, `fini_class_instance`: the placeholder becomes the object
      its node describes, and so does every object beneath it. */
  lemma {:induction false} FillOk(reg: Registry, X: FabInfo, st: BuildState)
    requires Good(st) && Placeholder(st, X) && UniqueSeq(Kids(X)) && SeqIds(Kids(X)) !! st.memo.Keys
    requires RunJob(reg, Fill(X), st).Ok?
    ensures var st' := RunJob(reg, Fill(X), st).value;
      && Good(st') && Grows(st, st', SeqIds(Kids(X))) && Keeps(st, st', {X.memoId})
      && Described(st'.heap, st'.memo, X) && AllDescribedSeq(st'.heap, st'.memo, Kids(X))
    decreases InfoSize(X), 1, 0, 0
  {
    var a := st.memo[X.memoId].id;
    FillUnfold(reg, X, st);
    var st1 := LoadScoped(reg, X, st).value;
    LoadScopedOk(reg, X, st);
    KeepsNone(st, st1);
    FillState(X, st, st1, RunJob(reg, Fill(X), st).value, a);
  }

  /** The child accumulator a fill leaves: the item values in order, or each key followed
      by its value's value. */
  predicate Pushed(X: FabInfo, st: BuildState)
    requires X.IsMutable()
  {
    BindsAll(Kids(X), st.memo) && st.stack == KidVals(X, st.memo)
  }

  function KidVals(X: FabInfo, M: Bindings): seq<Value>
    requires X.IsMutable() && BindsAll(Kids(X), M)
  {
    if X.ListNode? then Vals(X.items, M) else Interleave(PairVals(X.entries, M), LitOf)
  }

  /** A fill job that succeeds loads the children in scope, then writes what the node
      describes over the placeholder. */
  lemma FillUnfold(reg: Registry, X: FabInfo, st: BuildState)
    requires Placeholder(st, X) && RunJob(reg, Fill(X), st).Ok?
    ensures LoadScoped(reg, X, st).Ok?
    ensures var st1 := LoadScoped(reg, X, st).value; var a := st.memo[X.memoId].id;
      st1.heap[a] == EmptyOf(X) && Pushed(X, st1) ==>
        RunJob(reg, Fill(X), st).value == PopContext(st1.(heap := st1.heap[a := Expected(X, st1.memo)]))
  {
    if X.ListNode? {
      assert RunJob(reg, Fill(X), st) == FiniList(reg, X, st);
      ListFillUnfold(reg, X, st);
    } else {
      assert RunJob(reg, Fill(X), st) == FiniMapping(reg, X, st);
      MappingFillUnfold(reg, X, st);
    }
  }

  lemma ListFillUnfold(reg: Registry, X: FabInfo, st: BuildState)
    requires X.ListNode? && Placeholder(st, X) && FiniList(reg, X, st).Ok?
    ensures LoadScoped(reg, X, st).Ok?
    ensures var st1 := LoadScoped(reg, X, st).value; var a := st.memo[X.memoId].id;
      st1.heap[a] == EmptyOf(X) && Pushed(X, st1) ==>
        FiniList(reg, X, st).value == PopContext(st1.(heap := st1.heap[a := Expected(X, st1.memo)]))
  {
    var a := st.memo[X.memoId].id;
    assert Target(X, st) == Ok(Obj(a));
    var st1 := LoadScoped(reg, X, st).value;
    if st1.heap[a] == EmptyOf(X) && Pushed(X, st1) {
      assert ListObj(st1.heap[a].items + st1.stack) == Expected(X, st1.memo);
    }
  }

  lemma MappingFillUnfold(reg: Registry, X: FabInfo, st: BuildState)
    requires (X.DictNode? || X.InstanceNode?) && Placeholder(st, X) && FiniMapping(reg, X, st).Ok?
    ensures LoadScoped(reg, X, st).Ok?
    ensures var st1 := LoadScoped(reg, X, st).value; var a := st.memo[X.memoId].id;
      st1.heap[a] == EmptyOf(X) && Pushed(X, st1) ==>
        FiniMapping(reg, X, st).value == PopContext(st1.(heap := st1.heap[a := Expected(X, st1.memo)]))
  {
    var a := st.memo[X.memoId].id;
    var st1 := LoadScoped(reg, X, st).value;
    if st1.heap[a] == EmptyOf(X) && Pushed(X, st1) {
      MappingFilled(X, st1.memo);
      FiniMappingFills(reg, X, st, a, Expected(X, st1.memo));
    }
  }

  /** A fill job finishes a list by `fini_list` and a dict or instance by `fini_mapping`. */
  lemma FillJob(reg: Registry, X: FabInfo, st: BuildState)
    requires X.IsMutable()
    ensures RunJob(reg, Fill(X), st) == if X.ListNode? then FiniList(reg, X, st) else FiniMapping(reg, X, st)
  {
  }

  /** `fini_list` extends the target list with what the children left and pops the context. */
  lemma FiniListFills(reg: Registry, X: FabInfo, st: BuildState, a: ObjId, st1: BuildState)
    requires X.ListNode? && Target(X, st) == Ok(Obj(a)) && LoadScoped(reg, X, st) == Ok(st1)
    requires a < |st1.heap| && st1.heap[a].ListObj?
    ensures FiniList(reg, X, st) == Ok(PopContext(st1.(heap := st1.heap[a := ListObj(st1.heap[a].items + st1.stack)])))
  {
  }

  /** `fini_mapping` pairs what the children left into the target and pops the context. */
  lemma FiniMappingFills(reg: Registry, X: FabInfo, st: BuildState, a: ObjId, filled: HeapObj)
    requires (X.DictNode? || X.InstanceNode?) && Target(X, st) == Ok(Obj(a))
    requires LoadScoped(reg, X, st).Ok?
    requires var st1 := LoadScoped(reg, X, st).value;
      a < |st1.heap| && |st1.stack| % 2 == 0 && AssignPairs(X, st1.heap[a], st1.stack) == Ok(filled)
    ensures var st1 := LoadScoped(reg, X, st).value;
      FiniMapping(reg, X, st) == Ok(PopContext(st1.(heap := st1.heap[a := filled])))
  {
    var st1 := LoadScoped(reg, X, st).value;
    if |st1.stack| == 0 {
      assert st1.heap[a := filled] == st1.heap;
    }
  }

  /** Pairing the accumulator of a dict or instance into its empty placeholder gives the
      object the node describes. */
  lemma MappingFilled(X: FabInfo, M: Bindings)
    requires (X.DictNode? || X.InstanceNode?) && BindsAll(Kids(X), M)
    ensures |Interleave(PairVals(X.entries, M), LitOf)| % 2 == 0
    ensures AssignPairs(X, EmptyOf(X), Interleave(PairVals(X.entries, M), LitOf)) == Ok(Expected(X, M))
  {
    PairIntoInterleave([], PairVals(X.entries, M), LitOf, KeyOfValue);
  }

  lemma KeepsNone(st: BuildState, st': BuildState)
    requires Keeps(st, st', {})
    ensures forall a :: 0 <= a < |st.heap| ==> st'.heap[a] == st.heap[a]
  {
    assert Holes(st.memo, {}) == {};
  }

  /** Writing the described object over the placeholder touches nothing the children
      stand for. */
  lemma FillState(X: FabInfo, st: BuildState, st1: BuildState, st': BuildState, a: ObjId)
    requires Good(st) && Placeholder(st, X) && a == st.memo[X.memoId].id && SeqIds(Kids(X)) !! st.memo.Keys
    requires Good(st1) && Grows(st, st1, SeqIds(Kids(X))) && Keeps(st, st1, {})
    requires Pushed(X, st1) && AllDescribedSeq(st1.heap, st1.memo, Kids(X))
    requires st'.heap == st1.heap[a := Expected(X, st1.memo)] && st'.memo == st1.memo
    ensures Good(st') && Grows(st, st', SeqIds(Kids(X))) && Keeps(st, st', {X.memoId})
    ensures Described(st'.heap, st'.memo, X) && AllDescribedSeq(st'.heap, st'.memo, Kids(X))
  {
    assert st1.memo[X.memoId] == Obj(a) && X.memoId !in SeqIds(Kids(X));
    UpdateAgrees(st1, st'.heap, X.memoId, a, SeqIds(Kids(X)), Expected(X, st1.memo));
    DescribedSeqStable(st1.heap, st'.heap, st1.memo, st'.memo, Kids(X));
    WriteKeeps(st, st1, st', X.memoId, a, SeqIds(Kids(X)), Expected(X, st1.memo));
  }

  /** Writing the object bound to `p` keeps the memo good and the heap but that object. */
  lemma WriteKeeps(st: BuildState, st1: BuildState, st': BuildState, p: nat, a: ObjId, ids: set<nat>, o: HeapObj)
    requires Good(st) && p in st.memo && st.memo[p] == Obj(a)
    requires Good(st1) && Grows(st, st1, ids) && Keeps(st, st1, {})
    requires st'.heap == st1.heap[a := o] && st'.memo == st1.memo
    ensures Good(st') && Grows(st, st', ids) && Keeps(st, st', {p})
  {
    assert a in Holes(st.memo, {p});
  }

  /** Writing the object bound to `p` changes no object bound to any other id. */
  lemma UpdateAgrees(st1: BuildState, h': Heap, p: nat, a: ObjId, ids: set<nat>, o: HeapObj)
    requires Good(st1) && p in st1.memo && st1.memo[p] == Obj(a) && p !in ids && a < |st1.heap|
    requires h' == st1.heap[a := o]
    ensures Agree(st1.heap, h', st1.memo, ids)
  {
    forall m | m in ids && m in st1.memo && st1.memo[m].Obj? && st1.memo[m].id < |st1.heap|
      ensures st1.memo[m].id != a
    {
      assert m != p;
    }
  }

  /** The shared part of the fills: the children are loaded and their own fills run. */
  lemma {:induction false} LoadScopedOk(reg: Registry, X: FabInfo, st: BuildState)
    requires X.IsMutable() && Good(st) && UniqueSeq(Kids(X)) && SeqIds(Kids(X)) !! st.memo.Keys
    requires LoadScoped(reg, X, st).Ok?
    ensures var st' := LoadScoped(reg, X, st).value;
      && Good(st') && Grows(st, st', SeqIds(Kids(X))) && Keeps(st, st', {})
      && Pushed(X, st') && AllDescribedSeq(st'.heap, st'.memo, Kids(X))
    decreases InfoSize(X), 0, 1, 0
  {
    ScopedUnfold(reg, X, st);
    var st1 := PushJobs(PushContext(st));
    var st2 := LoadKids(reg, X, st1).value;
    LoadKidsOk(reg, X, st1);
    var js := st2.jobs;
    RunFillsOk(reg, js, 0, Kids(X), st2);
    ScopedState(X, st, st1, st2, RunJobs(reg, js, 0, st2).value, LoadScoped(reg, X, st).value);
  }

  /** A scoped load that succeeds loads the children, then runs the fills they deferred. */
  lemma ScopedUnfold(reg: Registry, X: FabInfo, st: BuildState)
    requires X.IsMutable() && LoadScoped(reg, X, st).Ok?
    ensures LoadKids(reg, X, PushJobs(PushContext(st))).Ok?
    ensures var st2 := LoadKids(reg, X, PushJobs(PushContext(st))).value;
      && st2.jobs[0..] == DeferredSeq(Kids(X)) && QueueOk(st2.jobs, 0, |st2.metaStack|)
      && MaxFrom(st2.jobs, 0) < InfoSize(X) && RunJobs(reg, st2.jobs, 0, st2).Ok?
      && LoadScoped(reg, X, st).value == PopJobs(RunJobs(reg, st2.jobs, 0, st2).value.(jobs := []))
  {
    var st1 := PushJobs(PushContext(st));
    ChildWeight(X);
    var st2 := LoadKids(reg, X, st1).value;
    FreshQueue(st2.jobs, Kids(X), InfoSize(X), |st2.metaStack|);
    assert st2.jobs[0..] == st2.jobs;
  }

  /** The children of a list, dict or instance, loaded into an empty context. */
  lemma {:induction false} LoadKidsOk(reg: Registry, X: FabInfo, st: BuildState)
    requires X.IsMutable() && Good(st) && UniqueSeq(Kids(X)) && SeqIds(Kids(X)) !! st.memo.Keys
    requires LoadKids(reg, X, st).Ok?
    ensures var st' := LoadKids(reg, X, st).value;
      && Good(st') && Grows(st, st', SeqIds(Kids(X))) && Keeps(st, st', {})
      && BindsAll(Kids(X), st'.memo) && st'.stack == st.stack + KidVals(X, st'.memo)
      && LoadedSeq(st', Kids(X))
    decreases InfoSize(X), 0, 0, 0
  {
    ChildWeight(X);
    KidsSmaller(X);
    if X.ListNode? {
      assert X.items[0..] == X.items;
      LoadItemsOk(reg, X.items, 0, st);
    } else {
      assert X.entries[0..] == X.entries;
      LoadEntriesOk(reg, X.entries, 0, st);
    }
  }

  /** Closing the scope hands the children's values back, every one described. */
  lemma ScopedState(X: FabInfo, st: BuildState, st1: BuildState, st2: BuildState, st3: BuildState, st': BuildState)
    requires X.IsMutable() && SeqIds(Kids(X)) !! st.memo.Keys
    requires st1.heap == st.heap && st1.memo == st.memo && st1.stack == []
    requires Good(st2) && Grows(st1, st2, SeqIds(Kids(X))) && Keeps(st1, st2, {})
    requires BindsAll(Kids(X), st2.memo) && st2.stack == st1.stack + KidVals(X, st2.memo)
    requires Good(st3) && Grows(st2, st3, SeqIds(Kids(X))) && Keeps(st2, st3, MutIds(Kids(X)))
    requires AllDescribedSeq(st3.heap, st3.memo, Kids(X)) && st3.stack == st2.stack
    requires st'.heap == st3.heap && st'.memo == st3.memo && st'.stack == st3.stack
    ensures Good(st') && Grows(st, st', SeqIds(Kids(X))) && Keeps(st, st', {})
    ensures Pushed(X, st') && AllDescribedSeq(st'.heap, st'.memo, Kids(X))
  {
    KidValsStable(X, st2.memo, st3.memo);
    ScopedGrows(Kids(X), st, st1, st2, st3);
  }

  /** The children's values do not change once their ids are bound. */
  lemma KidValsStable(X: FabInfo, M: Bindings, M': Bindings)
    requires X.IsMutable() && BindsAll(Kids(X), M) && Extends(M, M')
    ensures BindsAll(Kids(X), M') && KidVals(X, M') == KidVals(X, M)
  {
    if X.ListNode? {
      ValsStable(X.items, M, M');
    } else {
      PairValsStable(X.entries, M, M');
    }
  }

  /** Loading the children and then running their fills registers only their ids and
      changes only their own placeholders, none of which existed before. */
  lemma ScopedGrows(kids: seq<Node>, st: BuildState, st1: BuildState, st2: BuildState, st3: BuildState)
    requires SeqIds(kids) !! st.memo.Keys && st1.heap == st.heap && st1.memo == st.memo
    requires Grows(st1, st2, SeqIds(kids)) && Keeps(st1, st2, {})
    requires Grows(st2, st3, SeqIds(kids)) && Keeps(st2, st3, MutIds(kids))
    ensures Grows(st, st3, SeqIds(kids)) && Keeps(st, st3, {})
  {
    GrowsChain(st1, st2, st3, SeqIds(kids), SeqIds(kids), SeqIds(kids));
    MutIdsIn(kids);
    KeepsChain(st1, st2, st3, {}, MutIds(kids), SeqIds(kids), MutIds(kids));
    KeepsUnbound(st1, st3, MutIds(kids));
  }
}

/** The builder's end-to-end guarantee. */
module BuilderTheorem {
  import opened Results
  import opened Values
  import opened Nodes
  import opened Decoding
  import opened Builder
  import opened BuilderProofs

  /** When `load` succeeds on a tree whose introduced memo ids are distinct, the returned
      value is what the tree stands for: every memo id is bound to its own new object,
      that object holds what its node describes, and the objects that existed before are
      left untouched. */
  lemma LoadDecodes(reg: Registry, world: Heap, n: Node)
    requires Unique(n) && LoadState(reg, world, n).Ok?
    ensures var st := LoadState(reg, world, n).value;
      && Decodes(st.heap, st.memo, n, st.stack[0])
      && st.memo.Keys <= Ids(n)
      && (forall m :: m in st.memo ==> st.memo[m].Obj? && |world| <= st.memo[m].id < |st.heap|)
      && (forall m1, m2 :: m1 in st.memo && m2 in st.memo && m1 != m2 ==> st.memo[m1] != st.memo[m2])
      && st.heap[..|world|] == world
  {
    var st1 := LoadAny(reg, n, Start(world)).value;
    assert LoadAny(reg, n, Start(world)).Ok? && Drain(reg, st1) == LoadState(reg, world, n);
    RootLoaded(reg, world, n, st1);
  }

  /** The root's load followed by the drain of its queue, given the state the load leaves. */
  lemma RootLoaded(reg: Registry, world: Heap, n: Node, st1: BuildState)
    requires Unique(n) && LoadAny(reg, n, Start(world)) == Ok(st1) && Drain(reg, st1).Ok?
    ensures var st := Drain(reg, st1).value;
      && Decodes(st.heap, st.memo, n, st.stack[0])
      && st.memo.Keys <= Ids(n)
      && (forall m :: m in st.memo ==> st.memo[m].Obj? && |world| <= st.memo[m].id < |st.heap|)
      && (forall m1, m2 :: m1 in st.memo && m2 in st.memo && m1 != m2 ==> st.memo[m1] != st.memo[m2])
      && st.heap[..|world|] == world
  {
    var st0 := Start(world);
    var st' := Drain(reg, st1).value;
    LoadAnyOk(reg, n, st0);
    RootFills(reg, n, st0, st1);
    assert st'.stack == st1.stack;
    RootDecodes(world, n, st0, st1, st');
  }

  /** The facts the root's load and drain leave, read as the theorem states them. */
  lemma RootDecodes(world: Heap, n: Node, st0: BuildState, st1: BuildState, st': BuildState)
    requires st0 == Start(world) && st'.stack == st1.stack
    requires Good(st1) && Grows(st0, st1, Ids(n)) && Binds(n, st1.memo) && st1.stack == st0.stack + [Val(n, st1.memo)]
    requires Good(st') && Grows(st0, st', Ids(n)) && Keeps(st0, st', {})
    requires Binds(n, st'.memo) && Val(n, st'.memo) == Val(n, st1.memo) && AllDescribed(st'.heap, st'.memo, n)
    ensures && Decodes(st'.heap, st'.memo, n, st'.stack[0])
      && st'.memo.Keys <= Ids(n)
      && (forall m :: m in st'.memo ==> st'.memo[m].Obj? && |world| <= st'.memo[m].id < |st'.heap|)
      && (forall m1, m2 :: m1 in st'.memo && m2 in st'.memo && m1 != m2 ==> st'.memo[m1] != st'.memo[m2])
      && st'.heap[..|world|] == world
  {
    KeepsNone(st0, st');
  }

  /** Draining the root's queue runs its one fill, if it has one, and describes the root. */
  lemma RootFills(reg: Registry, n: Node, st0: BuildState, st1: BuildState)
    requires Unique(n) && st0.memo == map[] && st1.jobs == Deferred(n) && |st1.metaStack| == 0
    requires Good(st1) && Grows(st0, st1, Ids(n)) && Keeps(st0, st1, {}) && Binds(n, st1.memo) && Loaded(st1, n)
    requires Drain(reg, st1).Ok?
    ensures var st' := Drain(reg, st1).value;
      && Good(st') && Grows(st0, st', Ids(n)) && Keeps(st0, st', {})
      && Binds(n, st'.memo) && Val(n, st'.memo) == Val(n, st1.memo) && AllDescribed(st'.heap, st'.memo, n)
  {
    DrainRoot(reg, n, st1);
    if n.Fab? && n.info.IsMutable() {
      var js := st1.jobs;
      var st2 := RunJobs(reg, js, 0, st1).value;
      RunFillsOk(reg, js, 0, [n], st1);
      RootState(n, st0, st1, st2, Drain(reg, st1).value);
    }
  }

  /** The root's queue holds at most its own fill; draining it runs that fill once. */
  lemma DrainRoot(reg: Registry, n: Node, st1: BuildState)
    requires st1.jobs == Deferred(n) && |st1.metaStack| == 0 && Drain(reg, st1).Ok?
    ensures !(n.Fab? && n.info.IsMutable()) ==> Drain(reg, st1).value == st1
    ensures n.Fab? && n.info.IsMutable() ==>
      && st1.jobs[0..] == DeferredSeq([n]) && QueueOk(st1.jobs, 0, 0)
      && RunJobs(reg, st1.jobs, 0, st1).Ok?
      && Drain(reg, st1).value == RunJobs(reg, st1.jobs, 0, st1).value.(jobs := [])
  {
    if n.Fab? && n.info.IsMutable() {
      assert [n][1..] == [];
      assert st1.jobs[0..] == DeferredSeq([n]);
    }
  }

  lemma RootState(n: Node, st0: BuildState, st1: BuildState, st2: BuildState, st': BuildState)
    requires Unique(n) && st0.memo == map[] && n.Fab? && n.info.IsMutable()
    requires Good(st1) && Grows(st0, st1, Ids(n)) && Keeps(st0, st1, {}) && Binds(n, st1.memo)
    requires Good(st2) && Grows(st1, st2, SeqIds([n])) && Keeps(st1, st2, MutIds([n]))
    requires AllDescribedSeq(st2.heap, st2.memo, [n])
    requires st'.heap == st2.heap && st'.memo == st2.memo
    ensures Good(st') && Grows(st0, st', Ids(n)) && Keeps(st0, st', {})
    ensures Binds(n, st'.memo) && Val(n, st'.memo) == Val(n, st1.memo) && AllDescribed(st'.heap, st'.memo, n)
  {
    assert [n][1..] == [];
    assert SeqIds([n]) == Ids(n);
    MutIdsIn([n]);
    KeepsChain(st0, st1, st2, {}, MutIds([n]), Ids(n), MutIds([n]));
    KeepsUnbound(st0, st2, MutIds([n]));
    ValStable(n, st1.memo, st2.memo);
  }
}
