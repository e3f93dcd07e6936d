/** When saving cannot fail: every object the serializer can meet has a field mapping. A
    dict or instance always pairs up, since each saved key is a bare scalar. */
module SaveTotality {
  import opened Results
  import opened Values
  import opened Nodes
  import opened Serializer
  import SaverProofs

  /** No object of the heap lacks a field mapping. */
  predicate NoOpaque(heap: Heap) {
    forall o :: 0 <= o < |heap| ==> !heap[o].Opaque?
  }

  /** `save(obj)` succeeds on every value of a closed heap whose objects all have a field
      mapping, however the objects share and cycle. */
  lemma SaveOk(heap: Heap, v: Value)
    requires Closed(heap) && ValidIn(heap, v) && NoOpaque(heap)
    ensures Save(heap, v).Ok?
  {
    AnySaves(heap, v, Fresh());
  }

  lemma {:induction false} AnySaves(heap: Heap, v: Value, st: SaveState)
    requires Closed(heap) && ValidIn(heap, v) && NoOpaque(heap)
    ensures SaveAny(heap, v, st).Ok?
    decreases Unseen(heap, st.memo), 0, 0
  {
    if v.Obj? && KeyOf(v) !in st.memo {
      var o := v.id;
      var idx := |st.memo|;
      var st1 := st.(memo := st.memo[KeyOf(v) := idx]);
      UnseenRegister(heap, st.memo, o, idx);
      ClosedHolds(heap, o);
      match heap[o]
      case ListObj(items) =>
        ItemListSaves(heap, false, items, idx, st1);
      case TupleObj(items) =>
        ItemListSaves(heap, true, items, idx, st1);
      case DictObj(entries) =>
        ItemDictSaves(heap, None, entries, idx, st1);
      case InstanceObj(c, fields) =>
        ItemDictSaves(heap, Some(c), fields, idx, st1);
    }
  }

  lemma {:induction false} ItemListSaves(heap: Heap, isTuple: bool, items: seq<Value>, idx: nat, st: SaveState)
    requires Closed(heap) && (forall i :: 0 <= i < |items| ==> ValidIn(heap, items[i])) && NoOpaque(heap)
    ensures SaveItemList(heap, isTuple, items, idx, st).Ok?
    decreases Unseen(heap, st.memo), 2, 0
  {
    ItemsSave(heap, items, 0, PushContext(Put(st, Fab(SeqNode(isTuple, idx, [])))));
  }

  lemma {:induction false} ItemsSave(heap: Heap, items: seq<Value>, i: nat, st: SaveState)
    requires Closed(heap) && (forall j :: 0 <= j < |items| ==> ValidIn(heap, items[j])) && NoOpaque(heap)
    requires i <= |items|
    ensures SaveItems(heap, items, i, st).Ok?
    decreases Unseen(heap, st.memo), 1, |items| - i
  {
    if i < |items| {
      AnySaves(heap, items[i], st);
      var st1 := SaveAny(heap, items[i], st).value;
      UnseenShrinks(heap, st.memo, st1.memo);
      ItemsSave(heap, items, i + 1, st1);
    }
  }

  lemma {:induction false} ItemDictSaves(heap: Heap, cls: Option<QualName>, entries: Entries, idx: nat, st: SaveState)
    requires Closed(heap) && (forall i :: 0 <= i < |entries| ==> ValidIn(heap, entries[i].1)) && NoOpaque(heap)
    ensures SaveItemDict(heap, cls, entries, idx, st).Ok?
    decreases Unseen(heap, st.memo), 2, 0
  {
    var st1 := PushContext(Put(st, Fab(MapNode(cls, idx, []))));
    EntriesSave(heap, entries, 0, st1);
    var acc := SaveEntries(heap, entries, 0, st1).value.stack;
    KeyedPairs(acc, entries);
  }

  /** The keys of `entries[i..]`, as bare scalars, every second slot of `s` from `lo` on. */
  predicate KeyedAt(s: seq<Node>, lo: nat, entries: Entries, i: nat)
    decreases |entries| - i
  {
    i < |entries| ==> lo < |s| && s[lo] == Bare(entries[i].0) && KeyedAt(s, lo + 2, entries, i + 1)
  }

  /** The `k`-th slot of every second one from `lo`. */
  function EvenSlot(lo: nat, k: nat): nat {
    lo + 2 * k
  }

  lemma {:induction false} KeyedSlots(s: seq<Node>, lo: nat, entries: Entries, i: nat)
    requires KeyedAt(s, lo, entries, i)
    ensures forall k :: 0 <= k < |entries| - i ==> EvenSlot(lo, k) < |s| && s[EvenSlot(lo, k)] == Bare(entries[i + k].0)
    decreases |entries| - i
  {
    if i < |entries| {
      KeyedSlots(s, lo + 2, entries, i + 1);
      forall k | 0 <= k < |entries| - i
        ensures EvenSlot(lo, k) < |s| && s[EvenSlot(lo, k)] == Bare(entries[i + k].0)
      {
        if k > 0 {
          assert EvenSlot(lo, k) == EvenSlot(lo + 2, k - 1);
        }
      }
    }
  }

  /** An accumulator of the entries' length holding their keys as bare scalars in its even
      slots pairs up. */
  lemma KeyedPairs(acc: seq<Node>, entries: Entries)
    requires |acc| == 2 * |entries| && KeyedAt(acc, 0, entries, 0)
    ensures PairUp(acc, KeyOfNode).Ok?
  {
    KeyedSlots(acc, 0, entries, 0);
    forall j | 0 <= j < |acc| && j % 2 == 0
      ensures KeyOfNode(acc[j]).Some?
    {
      assert j == EvenSlot(0, j / 2);
    }
  }

  lemma {:induction false} EntriesSave(heap: Heap, entries: Entries, i: nat, st: SaveState)
    requires Closed(heap) && (forall j :: 0 <= j < |entries| ==> ValidIn(heap, entries[j].1)) && NoOpaque(heap)
    requires i <= |entries|
    ensures SaveEntries(heap, entries, i, st).Ok?
    ensures KeyedAt(SaveEntries(heap, entries, i, st).value.stack, |st.stack|, entries, i)
    decreases Unseen(heap, st.memo), 1, |entries| - i
  {
    if i < |entries| {
      PairSaves(heap, entries[i], st);
      var st1 := SavePair(heap, entries[i], st).value;
      UnseenShrinks(heap, st.memo, st1.memo);
      EntriesSave(heap, entries, i + 1, st1);
      var s := SaveEntries(heap, entries, i + 1, st1).value.stack;
      KeyedStep(s, st.stack, st1.stack, entries, i);
    }
  }

  lemma {:induction false} PairSaves(heap: Heap, e: (Literal, Value), st: SaveState)
    requires Closed(heap) && ValidIn(heap, e.1) && NoOpaque(heap)
    ensures SavePair(heap, e, st).Ok?
    decreases Unseen(heap, st.memo), 0, 1
  {
    var st1 := SaveAny(heap, Lit(e.0), st).value;
    UnseenShrinks(heap, st.memo, st1.memo);
    AnySaves(heap, e.1, st1);
  }

  lemma KeyedStep(s: seq<Node>, before: seq<Node>, after: seq<Node>, entries: Entries, i: nat)
    requires |after| == |before| + 2 <= |s| && s[..|after|] == after
    requires i < |entries| && after[|before|] == Bare(entries[i].0)
    requires KeyedAt(s, |after|, entries, i + 1)
    ensures KeyedAt(s, |before|, entries, i)
  {
    assert s[|before|] == s[..|after|][|before|];
  }
}
