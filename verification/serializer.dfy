/** The object-to-tree engine: `Serializer` and module `save` of `savers.py`. */
module Serializer {
  import opened Results
  import opened Values
  import opened Nodes

  /** What `id(obj)` stands for. Literals are keyed by their value (the interpreter shares
      equal constants), classes by their qualified name, heap objects by their identity. */
  datatype MemoKey = LitKey(lit: Literal) | ObjKey(id: ObjId) | ClassKey(cls: QualName)

  /** `memo`: identity to the index first assigned to it. */
  type Memo = map<MemoKey, nat>

  /** The serializer's fields: the memo, the current accumulator `stack`
      and the saved outer accumulators `meta_stack`. */
  datatype SaveState = SaveState(memo: Memo, stack: seq<Node>, metaStack: seq<seq<Node>>)

  function KeyOf(v: Value): MemoKey {
    match v
    case Lit(l) => LitKey(l)
    case Obj(o) => ObjKey(o)
    case Class(c) => ClassKey(c)
  }

  /** A serializer as `__init__` leaves it. */
  function Fresh(): SaveState {
    SaveState(map[], [], [])
  }

  /** `push_context`: children collect into a fresh accumulator, and popping gives back
      exactly the state pushed from. */
  function PushContext(st: SaveState): (r: SaveState)
    ensures r.stack == [] && |r.metaStack| == |st.metaStack| + 1
    ensures PopContext(r) == st
  {
    st.(metaStack := st.metaStack + [st.stack], stack := [])
  }

  function PopContext(st: SaveState): SaveState
    requires |st.metaStack| > 0
  {
    st.(stack := st.metaStack[|st.metaStack| - 1], metaStack := st.metaStack[..|st.metaStack| - 1])
  }

  function Put(st: SaveState, n: Node): SaveState {
    st.(stack := st.stack + [n])
  }

  /** Memo entries are never dropped; object and class indices never change (a literal's slot
      is re-taken each time the literal recurs). */
  ghost predicate MemoGrows(m: Memo, m': Memo) {
    forall k :: k in m ==> k in m' && (!k.LitKey? ==> m'[k] == m[k])
  }

  /** Heap objects not yet in the memo: the measure that bounds the walk of a cyclic graph. */
  ghost function Unseen(heap: Heap, m: Memo): set<ObjId> {
    set o | 0 <= o < |heap| && ObjKey(o) !in m
  }

  lemma UnseenShrinks(heap: Heap, m: Memo, m': Memo)
    requires MemoGrows(m, m')
    ensures Unseen(heap, m') <= Unseen(heap, m)
  {
  }

  lemma UnseenRegister(heap: Heap, m: Memo, o: ObjId, idx: nat)
    requires o < |heap| && ObjKey(o) !in m
    ensures Unseen(heap, m[ObjKey(o) := idx]) < Unseen(heap, m)
  {
    assert o in Unseen(heap, m) && o !in Unseen(heap, m[ObjKey(o) := idx]);
  }

  /** `save_ref`: a back-reference carrying the index first assigned to the object. */
  function SaveRef(st: SaveState, v: Value): SaveState
    requires KeyOf(v) in st.memo
  {
    Put(st, Fab(Reference(st.memo[KeyOf(v)])))
  }

  /** `save_any`, with the dispatch table folded in. */
  function SaveAny(heap: Heap, v: Value, st: SaveState): (r: Result<SaveState>)
    requires Closed(heap) && ValidIn(heap, v)
    // a float, int or str is emitted as itself, however often it recurs
    ensures v.Lit? ==> r.Ok? && r.value.stack == st.stack + [Bare(v.lit)]
    // anything else already in the memo becomes a reference to its first index, memo untouched
    ensures !v.Lit? && KeyOf(v) in st.memo ==>
      r == Ok(st.(stack := st.stack + [Fab(Reference(st.memo[KeyOf(v)]))]))
    // a first-seen value takes index len(memo) before its children are saved
    ensures KeyOf(v) !in st.memo && r.Ok? ==> KeyOf(v) in r.value.memo && r.value.memo[KeyOf(v)] == |st.memo|
    // a class yields a `type` node with no memo id and no children
    ensures v.Class? && KeyOf(v) !in st.memo ==>
      r == Ok(SaveState(st.memo[KeyOf(v) := |st.memo|], st.stack + [Fab(TypeNode(v.cls))], st.metaStack))
    // an object without a field mapping cannot be saved
    ensures v.Obj? && ObjKey(v.id) !in st.memo && heap[v.id].Opaque? ==> r == Err(UnsupportedValue)
    // exactly one node lands on the accumulator current at entry; the context depth is restored
    ensures r.Ok? ==> |r.value.stack| == |st.stack| + 1 && r.value.stack[..|st.stack|] == st.stack
    ensures r.Ok? ==> r.value.metaStack == st.metaStack
    ensures r.Ok? ==> MemoGrows(st.memo, r.value.memo)
    decreases Unseen(heap, st.memo), 0, 0
  {
    if !v.Lit? && KeyOf(v) in st.memo then
      Ok(SaveRef(st, v))
    else
      var idx := |st.memo|;
      var st1 := st.(memo := st.memo[KeyOf(v) := idx]);
      match v
      case Lit(l) => Ok(Put(st1, Bare(l)))
      case Class(c) => Ok(Put(st1, Fab(TypeNode(c))))
      case Obj(o) =>
        UnseenRegister(heap, st.memo, o, idx);
        ClosedHolds(heap, o);
        match heap[o]
        case ListObj(items) => SaveItemList(heap, false, items, idx, st1)
        case TupleObj(items) => SaveItemList(heap, true, items, idx, st1)
        case DictObj(entries) => SaveItemDict(heap, None, entries, idx, st1)
        case InstanceObj(c, fields) => SaveItemDict(heap, Some(c), fields, idx, st1)
        case Opaque(_) => Err(UnsupportedValue)
  }

  function SeqNode(isTuple: bool, idx: nat, items: seq<Node>): FabInfo {
    if isTuple then TupleNode(idx, items) else ListNode(idx, items)
  }

  function MapNode(cls: Option<QualName>, idx: nat, entries: seq<(Literal, Node)>): FabInfo {
    match cls
    case None => DictNode(idx, entries)
    case Some(c) => InstanceNode(c, idx, entries)
  }

  /** `save_list` and `save_tuple`: the node goes onto the caller's accumulator first, then
      the items are saved into a child accumulator that becomes its `*item_list`. */
  function SaveItemList(heap: Heap, isTuple: bool, items: seq<Value>, idx: nat, st: SaveState): (r: Result<SaveState>)
    requires Closed(heap) && forall i :: 0 <= i < |items| ==> ValidIn(heap, items[i])
    // one node, under the matching kind tag and memo id, with one item node per element
    ensures r.Ok? ==> |r.value.stack| == |st.stack| + 1 && r.value.stack[..|st.stack|] == st.stack
    ensures r.Ok? ==> var n := r.value.stack[|st.stack|];
      && n.Fab? && (if isTuple then n.info.TupleNode? else n.info.ListNode?)
      && n.info.memoId == idx && |n.info.items| == |items|
    ensures r.Ok? ==> r.value.metaStack == st.metaStack && MemoGrows(st.memo, r.value.memo)
    decreases Unseen(heap, st.memo), 2, 0
  {
    var st1 := Put(st, Fab(SeqNode(isTuple, idx, [])));
    var st2 :- SaveItems(heap, items, 0, PushContext(st1));
    var st3 := PopContext(st2);
    Ok(st3.(stack := st3.stack[|st.stack| := Fab(SeqNode(isTuple, idx, st2.stack))]))
  }

  /** The `for item in obj: self.save_any(item)` loop, from the `i`-th item on. */
  function SaveItems(heap: Heap, items: seq<Value>, i: nat, st: SaveState): (r: Result<SaveState>)
    requires Closed(heap) && forall j :: 0 <= j < |items| ==> ValidIn(heap, items[j])
    requires i <= |items|
    ensures r.Ok? ==> |r.value.stack| == |st.stack| + |items| - i && r.value.stack[..|st.stack|] == st.stack
    ensures r.Ok? ==> r.value.metaStack == st.metaStack && MemoGrows(st.memo, r.value.memo)
    decreases Unseen(heap, st.memo), 1, |items| - i
  {
    if i == |items| then Ok(st)
    else
      var st1 :- SaveAny(heap, items[i], st);
      UnseenShrinks(heap, st.memo, st1.memo);
      var r := SaveItems(heap, items, i + 1, st1);
      assert r.Ok? ==> r.value.stack[..|st.stack|] == r.value.stack[..|st1.stack|][..|st.stack|];
      r
  }

  function KeyOfNode(n: Node): Option<Literal> {
    if n.Bare? then Some(n.lit) else None
  }

  /** `save_dict` and `save_class_instance`: each key then its value is saved into a child
      accumulator, which must hold an even number of nodes and is paired two at a time into
      the `*item_dict`. */
  function SaveItemDict(heap: Heap, cls: Option<QualName>, entries: Entries, idx: nat, st: SaveState): (r: Result<SaveState>)
    requires Closed(heap) && forall i :: 0 <= i < |entries| ==> ValidIn(heap, entries[i].1)
    ensures r.Ok? ==> |r.value.stack| == |st.stack| + 1 && r.value.stack[..|st.stack|] == st.stack
    ensures r.Ok? ==> var n := r.value.stack[|st.stack|];
      && n.Fab? && (if cls.None? then n.info.DictNode? else n.info.InstanceNode? && n.info.cls == cls.value)
      && n.info.memoId == idx
    ensures r.Ok? ==> r.value.metaStack == st.metaStack && MemoGrows(st.memo, r.value.memo)
    decreases Unseen(heap, st.memo), 2, 0
  {
    var st1 := Put(st, Fab(MapNode(cls, idx, [])));
    var st2 :- SaveEntries(heap, entries, 0, PushContext(st1));
    var pairs :- PairUp(st2.stack, KeyOfNode);
    var st3 := PopContext(st2);
    Ok(st3.(stack := st3.stack[|st.stack| := Fab(MapNode(cls, idx, pairs))]))
  }

  /** The `for key, val in ...items()` loop, from the `i`-th entry on. */
  function SaveEntries(heap: Heap, entries: Entries, i: nat, st: SaveState): (r: Result<SaveState>)
    requires Closed(heap) && forall j :: 0 <= j < |entries| ==> ValidIn(heap, entries[j].1)
    requires i <= |entries|
    ensures r.Ok? ==> |r.value.stack| == |st.stack| + 2 * (|entries| - i) && r.value.stack[..|st.stack|] == st.stack
    ensures r.Ok? ==> r.value.metaStack == st.metaStack && MemoGrows(st.memo, r.value.memo)
    decreases Unseen(heap, st.memo), 1, |entries| - i
  {
    if i == |entries| then Ok(st)
    else
      var st1 :- SavePair(heap, entries[i], st);
      UnseenShrinks(heap, st.memo, st1.memo);
      var r := SaveEntries(heap, entries, i + 1, st1);
      assert r.Ok? ==> r.value.stack[..|st.stack|] == r.value.stack[..|st1.stack|][..|st.stack|];
      r
  }

  /** The loop's body: `save_any(key)`, then `save_any(val)`. A key is a literal, so saving it
      cannot fail. */
  function SavePair(heap: Heap, e: (Literal, Value), st: SaveState): (r: Result<SaveState>)
    requires Closed(heap) && ValidIn(heap, e.1)
    ensures r.Ok? ==> |r.value.stack| == |st.stack| + 2 && r.value.stack[..|st.stack|] == st.stack
    ensures r.Ok? ==> r.value.stack[|st.stack|] == Bare(e.0)
    ensures r.Ok? ==> r.value.metaStack == st.metaStack && MemoGrows(st.memo, r.value.memo)
    decreases Unseen(heap, st.memo), 0, 1
  {
    var st1 := SaveAny(heap, Lit(e.0), st).value;
    UnseenShrinks(heap, st.memo, st1.memo);
    var r := SaveAny(heap, e.1, st1);
    assert r.Ok? ==> r.value.stack[..|st.stack|] == r.value.stack[..|st1.stack|][..|st.stack|];
    r
  }

  /** Module-level `save`: a fresh serializer saves the object and returns the one node. */
  function Save(heap: Heap, v: Value): (r: Result<Node>)
    requires Closed(heap) && ValidIn(heap, v)
    ensures v.Lit? ==> r == Ok(Bare(v.lit))
    ensures v.Class? ==> r == Ok(Fab(TypeNode(v.cls)))
    // the root is never a reference, and a root container or instance takes memo id 0
    ensures r.Ok? && v.Obj? ==> r.value.Fab? && r.value.info.IsIntro() && r.value.info.memoId == 0
  {
    var st :- SaveAny(heap, v, Fresh());
    Ok(st.stack[0])
  }
}
