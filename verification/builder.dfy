/** The tree-to-object engine: `Builder`, `is_buildable` and module `load` of `loaders.py`. */
module Builder {
  import opened Results
  import opened Values
  import opened Nodes

  /** The classes `importlib.import_module` and `getattr` can resolve. */
  type Registry = set<QualName>

  /** A deferred `partial(self.fini_..., config)`: `FiniTuple` finishes a tuple; `Fill` is
      `fini_list`, `fini_dict` or `fini_class_instance`, as the config's tag says. */
  datatype Job = FiniTuple(memoId: nat) | Fill(config: FabInfo)

  /** The builder's fields: the memo, the accumulator `stack` and `meta_stack`, the job
      queue `jobs` and `meta_jobs`, and the heap it allocates into. */
  datatype BuildState = BuildState(
    heap: Heap,
    memo: map<nat, Value>,
    stack: seq<Value>,
    metaStack: seq<seq<Value>>,
    jobs: seq<Job>,
    metaJobs: seq<seq<Job>>)

  /** A builder as `__init__` leaves it, allocating after the objects of `world`. */
  function Start(world: Heap): BuildState {
    BuildState(world, map[], [], [], [], [])
  }

  function Put(st: BuildState, v: Value): BuildState {
    st.(stack := st.stack + [v])
  }

  /** `push_context`: popping gives back exactly the state pushed from. */
  function PushContext(st: BuildState): (r: BuildState)
    ensures r.stack == [] && |r.metaStack| == |st.metaStack| + 1
    ensures PopContext(r) == st
  {
    st.(metaStack := st.metaStack + [st.stack], stack := [])
  }

  function PopContext(st: BuildState): BuildState
    requires |st.metaStack| > 0
  {
    st.(stack := st.metaStack[|st.metaStack| - 1], metaStack := st.metaStack[..|st.metaStack| - 1])
  }

  /** `push_jobs`: popping gives back exactly the state pushed from. */
  function PushJobs(st: BuildState): (r: BuildState)
    ensures r.jobs == [] && |r.metaJobs| == |st.metaJobs| + 1
    ensures PopJobs(r) == st
  {
    st.(metaJobs := st.metaJobs + [st.jobs], jobs := [])
  }

  function PopJobs(st: BuildState): BuildState
    requires |st.metaJobs| > 0
  {
    st.(jobs := st.metaJobs[|st.metaJobs| - 1], metaJobs := st.metaJobs[..|st.metaJobs| - 1])
  }

  /** Appends a fresh object to the heap; its identity is the old heap length. */
  function Alloc(st: BuildState, o: HeapObj): BuildState {
    st.(heap := st.heap + [o])
  }

  function JobSize(j: Job): nat {
    match j
    case FiniTuple(_) => 0
    case Fill(config) => InfoSize(config)
  }

  /** The largest job from the `i`-th on: the measure of the job queue. */
  function MaxFrom(js: seq<Job>, i: nat): (r: nat)
    requires i <= |js|
    ensures forall k :: i <= k < |js| ==> JobSize(js[k]) <= r
    ensures r == 0 || exists k :: i <= k < |js| && r == JobSize(js[k])
    decreases |js| - i
  {
    if i == |js| then 0
    else
      var rest := MaxFrom(js, i + 1);
      if JobSize(js[i]) >= rest then JobSize(js[i]) else rest
  }

  /** The job a node leaves behind for its caller's queue. */
  function Deferred(n: Node): seq<Job> {
    if n.Fab? && n.info.IsMutable() then [Fill(n.info)] else []
  }

  function DeferredSeq(ns: seq<Node>): seq<Job> {
    if |ns| == 0 then [] else Deferred(ns[0]) + DeferredSeq(ns[1..])
  }

  /** A job the builder can run: fills are only ever queued for mutable configs. */
  predicate JobOk(j: Job) {
    j.Fill? ==> j.config.IsMutable()
  }

  /** The queue protocol: a tuple's finish job only ever heads its own queue, and it runs
      while the tuple's child context is open. */
  predicate QueueOk(js: seq<Job>, i: nat, contexts: nat) {
    forall k :: i <= k < |js| ==> JobOk(js[k]) && (js[k].FiniTuple? ==> k == i && contexts > 0)
  }

  /** Every job deferred by a sequence of nodes is a fill no bigger than the sequence. */
  lemma {:induction false} DeferredBound(ns: seq<Node>)
    ensures forall j :: j in DeferredSeq(ns) ==> j.Fill? && JobOk(j) && JobSize(j) <= SeqSize(ns)
    decreases |ns|
  {
    if |ns| > 0 {
      DeferredBound(ns[1..]);
    }
  }

  lemma QueueBelow(js: seq<Job>, bound: nat)
    requires bound > 0
    requires forall k :: 0 <= k < |js| ==> JobSize(js[k]) < bound
    ensures MaxFrom(js, 0) < bound
  {
  }

  /** The weight of the entries from the `i`-th on: each key is one bare node. */
  function EntriesWeight(es: seq<(Literal, Node)>, i: nat): nat
    requires i <= |es|
  {
    (|es| - i) + SeqSize(ValuesOf(es)[i..])
  }

  /** The children of a mutable node weigh less than the node. */
  lemma ChildWeight(info: FabInfo)
    requires info.IsMutable()
    ensures info.ListNode? ==> SeqSize(info.items[0..]) < InfoSize(info)
    ensures !info.ListNode? ==> EntriesWeight(info.entries, 0) < InfoSize(info)
  {
    KidsSmaller(info);
    if info.ListNode? {
      assert info.items[0..] == info.items;
    } else {
      EntriesSizeIs(info, 0);
    }
  }

  lemma PrefixChain(a: seq<Value>, b: seq<Value>, c: seq<Value>)
    ensures |a| <= |b| <= |c| && b[..|a|] == a && c[..|b|] == b ==> c[..|a|] == a
  {
    if |a| <= |b| <= |c| && b[..|a|] == a && c[..|b|] == b {
      assert c[..|a|] == c[..|b|][..|a|];
    }
  }

  lemma DeferredCons(ns: seq<Node>, i: nat)
    requires i < |ns|
    ensures DeferredSeq(ns[i..]) == Deferred(ns[i]) + DeferredSeq(ns[i + 1..])
  {
    assert ns[i..][0] == ns[i] && ns[i..][1..] == ns[i + 1..];
  }

  lemma AppendAssoc(a: seq<Job>, b: seq<Job>, c: seq<Job>)
    ensures a + b + c == a + (b + c)
  {
  }

  /** `is_buildable` dispatch of `load_any`: a bare value is pushed unchanged. */
  function LoadAny(reg: Registry, n: Node, st: BuildState): (r: Result<BuildState>)
    ensures r.Ok? ==> |r.value.stack| == |st.stack| + 1 && r.value.stack[..|st.stack|] == st.stack
    ensures r.Ok? ==> r.value.metaStack == st.metaStack && r.value.metaJobs == st.metaJobs
    ensures r.Ok? ==> r.value.jobs == st.jobs + Deferred(n)
    ensures r.Ok? ==> HeapGrows(st.heap, r.value.heap)
    decreases Size(n), 5, 0
  {
    if !IsBuildable(n) then Ok(Put(st, Lit(n.lit)))
    else LoadFab(reg, n.info, st)
  }

  /** `load_fab`: dispatch on the `*type` tag. */
  function LoadFab(reg: Registry, info: FabInfo, st: BuildState): (r: Result<BuildState>)
    ensures r.Ok? ==> |r.value.stack| == |st.stack| + 1 && r.value.stack[..|st.stack|] == st.stack
    ensures r.Ok? ==> r.value.metaStack == st.metaStack && r.value.metaJobs == st.metaJobs
    ensures r.Ok? ==> r.value.jobs == st.jobs + Deferred(Fab(info))
    ensures r.Ok? ==> HeapGrows(st.heap, r.value.heap)
    decreases InfoSize(info), 4, 0
  {
    match info
    case Reference(m) => LoadReference(m, st)
    case TypeNode(c) => LoadType(reg, c, st)
    case ListNode(_, _) => LoadPlaceholder(info, st)
    case DictNode(_, _) => LoadPlaceholder(info, st)
    case InstanceNode(c, _, _) => if c !in reg then Err(TypeResolution) else LoadPlaceholder(info, st)
    case TupleNode(m, items) => LoadTuple(reg, info, st)
  }

  /** `load_reference`: the object registered under the memo id, or a lookup failure. */
  function LoadReference(m: nat, st: BuildState): (r: Result<BuildState>)
    ensures m !in st.memo ==> r == Err(UnresolvedReference(m))
    ensures m in st.memo ==> r.Ok? && r.value.stack == st.stack + [st.memo[m]]
    ensures r.Ok? ==> r.value.memo == st.memo && r.value.heap == st.heap && r.value.jobs == st.jobs
  {
    if m in st.memo then Ok(Put(st, st.memo[m])) else Err(UnresolvedReference(m))
  }

  /** `load_type`: the class itself, as the registry resolves it. */
  function LoadType(reg: Registry, c: QualName, st: BuildState): (r: Result<BuildState>)
    ensures c !in reg ==> r == Err(TypeResolution)
    ensures c in reg ==> r == Ok(Put(st, Class(c)))
  {
    if c in reg then Ok(Put(st, Class(c))) else Err(TypeResolution)
  }

  /** `load_list`, `load_dict` and `load_class_instance`: an empty object is allocated,
      memo-registered and pushed at once, and a fill job is queued for its contents. */
  function LoadPlaceholder(info: FabInfo, st: BuildState): (r: Result<BuildState>)
    requires info.IsMutable()
    ensures r.Ok?
    ensures var a := |st.heap|; var s := r.value;
      && s.heap == st.heap + [EmptyOf(info)]
      && s.memo == st.memo[info.memoId := Obj(a)]
      && s.stack == st.stack + [Obj(a)]
      && s.jobs == st.jobs + [Fill(info)]
      && s.metaStack == st.metaStack && s.metaJobs == st.metaJobs
  {
    var a := |st.heap|;
    var st1 := Alloc(st, EmptyOf(info));
    var st2 := Put(st1.(memo := st1.memo[info.memoId := Obj(a)]), Obj(a));
    Ok(st2.(jobs := st2.jobs + [Fill(info)]))
  }

  /** `load_tuple`: in a queue of its own, the finish job goes first and the items are
      loaded after it; running the queue builds the tuple from the item values, registers
      it, and only then fills the items' placeholders. */
  function LoadTuple(reg: Registry, info: FabInfo, st: BuildState): (r: Result<BuildState>)
    requires info.TupleNode?
    ensures r.Ok? ==> |r.value.stack| == |st.stack| + 1 && r.value.stack[..|st.stack|] == st.stack
    ensures r.Ok? ==> r.value.metaStack == st.metaStack && r.value.metaJobs == st.metaJobs
    ensures r.Ok? ==> r.value.jobs == st.jobs
    ensures r.Ok? ==> HeapGrows(st.heap, r.value.heap)
    decreases InfoSize(info), 3, 0
  {
    var st1 := PushJobs(st);
    var st2 := st1.(jobs := [FiniTuple(info.memoId)]);
    var st3 := PushContext(st2);
    assert info.items[0..] == info.items;
    var st4 :- LoadItems(reg, info.items, 0, st3);
    DeferredBound(info.items);
    KidsSmaller(info);
    QueueBelow(st4.jobs, InfoSize(info));
    var st5 :- DoJobs(reg, st4);
    GrowsTrans(st.heap, st4.heap, st5.heap);
    Ok(PopJobs(st5))
  }

  /** `fini_tuple`: the tuple is made from the child accumulator, the parent context is
      restored, and the tuple is pushed and memo-registered. */
  function FiniTupleJob(m: nat, st: BuildState): (r: BuildState)
    requires |st.metaStack| > 0
    ensures var a := |st.heap|; var n := |st.metaStack|;
      && r.heap == st.heap + [TupleObj(st.stack)]
      && r.memo == st.memo[m := Obj(a)]
      && r.stack == st.metaStack[n - 1] + [Obj(a)] && r.metaStack == st.metaStack[..n - 1]
      && r.jobs == st.jobs && r.metaJobs == st.metaJobs
  {
    var a := |st.heap|;
    var st1 := PopContext(Alloc(st, TupleObj(st.stack)));
    Put(st1, Obj(a)).(memo := st1.memo[m := Obj(a)])
  }

  /** The `for item in ...: self.load_any(item)` loop, from the `i`-th item on. */
  function LoadItems(reg: Registry, items: seq<Node>, i: nat, st: BuildState): (r: Result<BuildState>)
    requires i <= |items|
    ensures r.Ok? ==> |r.value.stack| == |st.stack| + |items| - i && r.value.stack[..|st.stack|] == st.stack
    ensures r.Ok? ==> r.value.metaStack == st.metaStack && r.value.metaJobs == st.metaJobs
    ensures r.Ok? ==> r.value.jobs == st.jobs + DeferredSeq(items[i..])
    ensures r.Ok? ==> HeapGrows(st.heap, r.value.heap)
    decreases SeqSize(items[i..]), 6, 0
  {
    if i == |items| then
      assert items[i..] == [];
      Ok(st)
    else
      assert items[i..][0] == items[i] && items[i..][1..] == items[i + 1..];
      var st1 :- LoadAny(reg, items[i], st);
      var r := LoadItems(reg, items, i + 1, st1);
      PrefixChain(st.stack, st1.stack, if r.Ok? then r.value.stack else st1.stack);
      DeferredCons(items, i);
      GrowsTrans(st.heap, st1.heap, if r.Ok? then r.value.heap else st1.heap);
      AppendAssoc(st.jobs, Deferred(items[i]), DeferredSeq(items[i + 1..]));
      r
  }

  /** The `for key, val in ...items(): load_any(key); load_any(val)` loop, from the `i`-th entry on. */
  function LoadEntries(reg: Registry, es: seq<(Literal, Node)>, i: nat, st: BuildState): (r: Result<BuildState>)
    requires i <= |es|
    ensures r.Ok? ==> |r.value.stack| == |st.stack| + 2 * (|es| - i) && r.value.stack[..|st.stack|] == st.stack
    ensures r.Ok? ==> r.value.metaStack == st.metaStack && r.value.metaJobs == st.metaJobs
    ensures r.Ok? ==> r.value.jobs == st.jobs + DeferredSeq(ValuesOf(es)[i..])
    ensures r.Ok? ==> HeapGrows(st.heap, r.value.heap)
    decreases EntriesWeight(es, i), 6, 0
  {
    var vs := ValuesOf(es);
    if i == |es| then
      assert vs[i..] == [];
      Ok(st)
    else
      assert vs[i..][0] == es[i].1 && vs[i..][1..] == vs[i + 1..];
      var st1 := Put(st, Lit(es[i].0));
      var st2 :- LoadAny(reg, es[i].1, st1);
      var r := LoadEntries(reg, es, i + 1, st2);
      PrefixChain(st.stack, st1.stack, st2.stack);
      PrefixChain(st.stack, st2.stack, if r.Ok? then r.value.stack else st2.stack);
      DeferredCons(vs, i);
      GrowsTrans(st.heap, st2.heap, if r.Ok? then r.value.heap else st2.heap);
      AppendAssoc(st.jobs, Deferred(es[i].1), DeferredSeq(vs[i + 1..]));
      r
  }

  /** `do_jobs`: runs the queued jobs in order, then clears the queue. */
  function DoJobs(reg: Registry, st: BuildState): (r: Result<BuildState>)
    requires QueueOk(st.jobs, 0, |st.metaStack|)
    ensures r.Ok? ==> r.value.jobs == [] && r.value.metaJobs == st.metaJobs
    ensures r.Ok? && (|st.jobs| == 0 || !st.jobs[0].FiniTuple?) ==>
      r.value.stack == st.stack && r.value.metaStack == st.metaStack
    ensures r.Ok? && |st.jobs| > 0 && st.jobs[0].FiniTuple? ==>
      var n := |st.metaStack|;
      |r.value.stack| == |st.metaStack[n - 1]| + 1 && r.value.stack[..|st.metaStack[n - 1]|] == st.metaStack[n - 1]
      && r.value.metaStack == st.metaStack[..n - 1]
    ensures r.Ok? ==> HeapGrows(st.heap, r.value.heap)
    decreases MaxFrom(st.jobs, 0), 3, 0
  {
    var st1 :- RunJobs(reg, st.jobs, 0, st);
    Ok(st1.(jobs := []))
  }

  /** The `for job in self.jobs: job()` loop, from the `i`-th job on. */
  function RunJobs(reg: Registry, js: seq<Job>, i: nat, st: BuildState): (r: Result<BuildState>)
    requires i <= |js|
    requires QueueOk(js, i, |st.metaStack|)
    ensures r.Ok? ==> r.value.jobs == st.jobs && r.value.metaJobs == st.metaJobs
    ensures r.Ok? && (i == |js| || !js[i].FiniTuple?) ==>
      r.value.stack == st.stack && r.value.metaStack == st.metaStack
    ensures r.Ok? && i < |js| && js[i].FiniTuple? ==>
      var n := |st.metaStack|;
      |r.value.stack| == |st.metaStack[n - 1]| + 1 && r.value.stack[..|st.metaStack[n - 1]|] == st.metaStack[n - 1]
      && r.value.metaStack == st.metaStack[..n - 1]
    ensures r.Ok? ==> HeapGrows(st.heap, r.value.heap)
    decreases MaxFrom(js, i), 2, |js| - i
  {
    if i == |js| then Ok(st)
    else
      var st1 :- RunJob(reg, js[i], st);
      var r := RunJobs(reg, js, i + 1, st1);
      GrowsTrans(st.heap, st1.heap, if r.Ok? then r.value.heap else st1.heap);
      r
  }

  /** One deferred job. */
  function RunJob(reg: Registry, j: Job, st: BuildState): (r: Result<BuildState>)
    requires JobOk(j)
    requires j.FiniTuple? ==> |st.metaStack| > 0
    ensures r.Ok? ==> r.value.jobs == st.jobs && r.value.metaJobs == st.metaJobs
    ensures r.Ok? && j.Fill? ==> r.value.stack == st.stack && r.value.metaStack == st.metaStack
    ensures r.Ok? && j.FiniTuple? ==>
      var n := |st.metaStack|;
      |r.value.stack| == |st.metaStack[n - 1]| + 1 && r.value.stack[..|st.metaStack[n - 1]|] == st.metaStack[n - 1]
      && r.value.metaStack == st.metaStack[..n - 1]
    ensures r.Ok? ==> HeapGrows(st.heap, r.value.heap)
    decreases JobSize(j), 1, 0
  {
    match j
    case FiniTuple(m) => Ok(FiniTupleJob(m, st))
    case Fill(config) =>
      if config.ListNode? then FiniList(reg, config, st) else FiniMapping(reg, config, st)
  }

  /** The memo entry a fill job fills, looked up before its children are loaded; what kind
      of object it is matters only once the job writes into it. */
  function Target(info: FabInfo, st: BuildState): (r: Result<Value>)
    requires info.IsMutable()
    ensures r.Ok? <==> info.memoId in st.memo
    ensures r.Ok? ==> r.value == st.memo[info.memoId]
    ensures r.Err? ==> r.fault == UnresolvedReference(info.memoId)
  {
    var m := info.memoId;
    if m !in st.memo then Err(UnresolvedReference(m)) else Ok(st.memo[m])
  }

  /** The kind of object the placeholder of each mutable node is. */
  predicate Fits(info: FabInfo, o: HeapObj) {
    match info
    case ListNode(_, _) => o.ListObj?
    case DictNode(_, _) => o.DictObj?
    case InstanceNode(_, _, _) => o.InstanceObj?
    case _ => false
  }

  /** The placeholder `load_list`, `load_dict` or `load_class_instance` allocates. */
  function EmptyOf(info: FabInfo): (r: HeapObj)
    requires info.IsMutable()
    ensures Fits(info, r) && Children(r) == []
  {
    match info
    case ListNode(_, _) => ListObj([])
    case DictNode(_, _) => DictObj([])
    case InstanceNode(c, _, _) => InstanceObj(c, [])
  }

  /** The part `fini_list`, `fini_dict` and `fini_class_instance` share: the children are
      loaded in a fresh context and a fresh queue, and that queue's jobs are run. */
  function LoadScoped(reg: Registry, info: FabInfo, st: BuildState): (r: Result<BuildState>)
    requires info.IsMutable()
    ensures r.Ok? ==> |r.value.stack| == (if info.ListNode? then |info.items| else 2 * |info.entries|)
    ensures r.Ok? ==> r.value.metaStack == st.metaStack + [st.stack]
    ensures r.Ok? ==> r.value.jobs == st.jobs && r.value.metaJobs == st.metaJobs
    ensures r.Ok? ==> HeapGrows(st.heap, r.value.heap)
    decreases InfoSize(info), 0, 1
  {
    var st1 := PushJobs(PushContext(st));
    ChildWeight(info);
    var st2 :- LoadKids(reg, info, st1);
    FreshQueue(st2.jobs, Kids(info), InfoSize(info), |st2.metaStack|);
    var st3 :- DoJobs(reg, st2);
    GrowsTrans(st.heap, st2.heap, st3.heap);
    Ok(PopJobs(st3))
  }

  /** The children of a mutable node, loaded one after another. */
  function LoadKids(reg: Registry, info: FabInfo, st: BuildState): (r: Result<BuildState>)
    requires info.IsMutable()
    ensures r.Ok? ==> |r.value.stack| == |st.stack| + (if info.ListNode? then |info.items| else 2 * |info.entries|)
    ensures r.Ok? ==> r.value.metaStack == st.metaStack && r.value.metaJobs == st.metaJobs
    ensures r.Ok? ==> r.value.jobs == st.jobs + DeferredSeq(Kids(info))
    ensures r.Ok? ==> HeapGrows(st.heap, r.value.heap)
    decreases InfoSize(info), 0, 0
  {
    ChildWeight(info);
    assert Kids(info)[0..] == Kids(info);
    if info.ListNode? then LoadItems(reg, info.items, 0, st) else LoadEntries(reg, info.entries, 0, st)
  }

  /** A queue of the jobs some children deferred is runnable and lighter than their parent. */
  lemma FreshQueue(js: seq<Job>, ns: seq<Node>, bound: nat, contexts: nat)
    requires js == [] + DeferredSeq(ns)
    requires SeqSize(ns) < bound
    ensures AllFills(js) && QueueOk(js, 0, contexts) && MaxFrom(js, 0) < bound
  {
    DeferredBound(ns);
    assert forall k :: 0 <= k < |js| ==> js[k] in DeferredSeq(ns);
  }

  /** `fini_list`: the memo entry is extended with the loaded values in item order; only a
      list has `extend`, even for no values. */
  function FiniList(reg: Registry, info: FabInfo, st: BuildState): (r: Result<BuildState>)
    requires info.ListNode?
    ensures r.Ok? ==> r.value.stack == st.stack && r.value.metaStack == st.metaStack
    ensures r.Ok? ==> r.value.jobs == st.jobs && r.value.metaJobs == st.metaJobs
    ensures r.Ok? ==> HeapGrows(st.heap, r.value.heap)
    ensures r.Ok? ==> (info.memoId in st.memo && st.memo[info.memoId].Obj? && st.memo[info.memoId].id < |r.value.heap|
      && r.value.heap[st.memo[info.memoId].id].ListObj?)
    decreases InfoSize(info), 0, 2
  {
    var t :- Target(info, st);
    var st1 :- LoadScoped(reg, info, st);
    if !(t.Obj? && t.id < |st1.heap| && st1.heap[t.id].ListObj?) then Err(KindMismatch(info.memoId))
    else
      var a := t.id;
      var filled := ListObj(st1.heap[a].items + st1.stack);
      GrowsUpdate(st.heap, st1.heap, a, filled);
      var st2 := st1.(heap := st1.heap[a := filled]);
      Ok(PopContext(st2))
  }

  function KeyOfValue(v: Value): Option<Literal> {
    if v.Lit? then Some(v.lit) else None
  }

  /** A key that indexes a list of length `len`: an int from `-len` up to `len - 1`. */
  predicate IsIndex(k: Value, len: nat) {
    k.Lit? && k.lit.Int? && -(len as int) <= k.lit.i < len
  }

  /** The slot an index key picks: negative keys count from the end. */
  function Slot(k: Value, len: nat): (j: nat)
    requires IsIndex(k, len)
    ensures j < len && (j - k.lit.i) % len == 0
  {
    if k.lit.i < 0 then len + k.lit.i else k.lit.i
  }

  /** No index key of the accumulator picks slot `j`. */
  predicate Untouched(acc: seq<Value>, j: nat, len: nat) {
    forall k :: 0 <= k < |acc| && k % 2 == 0 && IsIndex(acc[k], len) ==> Slot(acc[k], len) != j
  }

  /** `obj[key] = value` on a list, for each key/value pair of the accumulator in turn. */
  function AssignIndices(items: seq<Value>, acc: seq<Value>): (r: Result<seq<Value>>)
    requires |acc| % 2 == 0
    ensures r.Ok? <==> forall k :: 0 <= k < |acc| && k % 2 == 0 ==> IsIndex(acc[k], |items|)
    ensures r.Err? ==> r.fault == BadIndex
    ensures r.Ok? ==> |r.value| == |items|
    ensures r.Ok? ==> forall j :: 0 <= j < |items| && Untouched(acc, j, |items|) ==> r.value[j] == items[j]
    ensures r.Ok? && |acc| > 0 ==> r.value[Slot(acc[|acc| - 2], |items|)] == acc[|acc| - 1]
    decreases |acc|
  {
    if |acc| == 0 then Ok(items)
    else if !IsIndex(acc[0], |items|) then Err(BadIndex)
    else
      var r := AssignIndices(items[Slot(acc[0], |items|) := acc[1]], acc[2..]);
      assert forall k :: 2 <= k < |acc| ==> acc[k] == acc[2..][k - 2];
      r
  }

  /** The pairwise assignments of `fini_dict` (`obj[key] = value`) and `fini_class_instance`
      (`obj.__dict__[key] = value`): a dict takes literal keys, a list takes index keys and an
      instance takes literal keys into its fields; with no pair nothing is touched, and with
      one any other object cannot take it. */
  function AssignPairs(info: FabInfo, obj: HeapObj, acc: seq<Value>): (r: Result<HeapObj>)
    requires info.DictNode? || info.InstanceNode?
    requires |acc| % 2 == 0
    ensures |acc| == 0 ==> r == Ok(obj)
    ensures r.Ok? ==> SameKind(obj, r.value)
    ensures r.Ok? && |acc| > 0 ==> if info.InstanceNode? then obj.InstanceObj? else obj.DictObj? || obj.ListObj?
    ensures r.Ok? && obj.ListObj? ==> |r.value.items| == |obj.items|
  {
    if |acc| == 0 then Ok(obj)
    else if info.InstanceNode? then
      if obj.InstanceObj? then
        var d :- PairInto(obj.fields, acc, KeyOfValue);
        Ok(InstanceObj(obj.cls, d))
      else Err(KindMismatch(info.memoId))
    else if obj.DictObj? then
      var d :- PairInto(obj.entries, acc, KeyOfValue);
      Ok(DictObj(d))
    else if obj.ListObj? then
      var items :- AssignIndices(obj.items, acc);
      Ok(ListObj(items))
    else Err(KindMismatch(info.memoId))
  }

  /** `fini_dict` and `fini_class_instance`: the key-then-value accumulator must have even
      length and is assigned pairwise into the memo entry. */
  function FiniMapping(reg: Registry, info: FabInfo, st: BuildState): (r: Result<BuildState>)
    requires info.DictNode? || info.InstanceNode?
    ensures r.Ok? ==> r.value.stack == st.stack && r.value.metaStack == st.metaStack
    ensures r.Ok? ==> r.value.jobs == st.jobs && r.value.metaJobs == st.metaJobs
    ensures r.Ok? ==> HeapGrows(st.heap, r.value.heap)
    ensures info.memoId !in st.memo ==> r == Err(UnresolvedReference(info.memoId))
    decreases InfoSize(info), 0, 2
  {
    var t :- Target(info, st);
    var st1 :- LoadScoped(reg, info, st);
    if |st1.stack| % 2 != 0 then Err(MalformedPairs)
    else if |st1.stack| == 0 then Ok(PopContext(st1))
    else if !(t.Obj? && t.id < |st1.heap|) then Err(KindMismatch(info.memoId))
    else
      var a := t.id;
      var filled :- AssignPairs(info, st1.heap[a], st1.stack);
      GrowsUpdate(st.heap, st1.heap, a, filled);
      var st2 := st1.(heap := st1.heap[a := filled]);
      Ok(PopContext(st2))
  }

  /** A queue of fill jobs only, as a top-level load leaves it. */
  predicate AllFills(js: seq<Job>) {
    forall k :: 0 <= k < |js| ==> js[k].Fill? && js[k].config.IsMutable()
  }

  /** `while self.jobs: self.do_jobs()`. */
  function Drain(reg: Registry, st: BuildState): (r: Result<BuildState>)
    requires AllFills(st.jobs)
    ensures r.Ok? ==> r.value.jobs == [] && r.value.metaJobs == st.metaJobs
    ensures r.Ok? ==> r.value.stack == st.stack && r.value.metaStack == st.metaStack
    ensures r.Ok? ==> HeapGrows(st.heap, r.value.heap)
    decreases |st.jobs|
  {
    if |st.jobs| == 0 then Ok(st)
    else
      var st1 :- DoJobs(reg, st);
      var r := Drain(reg, st1);
      GrowsTrans(st.heap, st1.heap, if r.Ok? then r.value.heap else st1.heap);
      r
  }

  /** `Builder.load`: the root is loaded, then the job queue is drained until it is empty;
      the context and job stacks end balanced with the root alone on the accumulator. */
  function LoadState(reg: Registry, world: Heap, n: Node): (r: Result<BuildState>)
    ensures r.Ok? ==> |r.value.stack| == 1 && r.value.metaStack == [] && r.value.jobs == [] && r.value.metaJobs == []
    ensures r.Ok? ==> HeapGrows(world, r.value.heap)
  {
    var st :- LoadAny(reg, n, Start(world));
    var r := Drain(reg, st);
    GrowsTrans(world, st.heap, if r.Ok? then r.value.heap else st.heap);
    r
  }

  /** Module `load`: the heap after loading, and the root value; a bare scalar comes back
      as it is, with nothing allocated. */
  function Load(reg: Registry, world: Heap, n: Node): (r: Result<(Heap, Value)>)
    ensures n.Bare? ==> r == Ok((world, Lit(n.lit)))
    ensures r.Ok? ==> HeapGrows(world, r.value.0)
  {
    var st :- LoadState(reg, world, n);
    Ok((st.heap, st.stack[0]))
  }
}
