/** The saved tree: the vocabulary the serializer emits and the builder reads. */
module Nodes {
  import opened Values

  /** A saved value: a bare scalar, or a map carrying the `*fab` marker. */
  datatype Node =
    | Bare(lit: Literal)
    | Fab(info: FabInfo)

  /** The payload under the `*fab` marker, one constructor per `*type` tag:
      `reference`, `list`, `tuple`, `dict`, `type` and `class_instance`.
      `*memo_id`, `*item_list`, `*item_dict`, `*module` and `*class` become fields. */
  datatype FabInfo =
    | Reference(memoId: nat)
    | ListNode(memoId: nat, items: seq<Node>)
    | TupleNode(memoId: nat, items: seq<Node>)
    | DictNode(memoId: nat, entries: seq<(Literal, Node)>)
    | TypeNode(cls: QualName)
    | InstanceNode(cls: QualName, memoId: nat, entries: seq<(Literal, Node)>)
  {
    /** The node kinds that introduce the memo id they carry. */
    predicate IsIntro() {
      ListNode? || TupleNode? || DictNode? || InstanceNode?
    }

    /** The introducing kinds the builder allocates before their children exist. */
    predicate IsMutable() {
      ListNode? || DictNode? || InstanceNode?
    }
  }

  /** A value the builder must construct rather than push as it is. */
  predicate IsBuildable(n: Node) {
    n.Fab?
  }

  function Size(n: Node): (r: nat)
    ensures r >= 1
    decreases n
  {
    match n
    case Bare(_) => 1
    case Fab(info) => InfoSize(info)
  }

  function InfoSize(info: FabInfo): (r: nat)
    ensures r >= 1
    decreases info, 1
  {
    match info
    case ListNode(_, items) => 1 + SeqSize(items)
    case TupleNode(_, items) => 1 + SeqSize(items)
    case DictNode(_, entries) => 1 + EntriesSize(info, 0)
    case InstanceNode(_, _, entries) => 1 + EntriesSize(info, 0)
    case _ => 1
  }

  function SeqSize(ns: seq<Node>): nat
    decreases ns
  {
    if |ns| == 0 then 0 else Size(ns[0]) + SeqSize(ns[1..])
  }

  /** The entries of a dict or instance node from the `i`-th on; a key counts as one bare node. */
  function EntriesSize(info: FabInfo, i: nat): nat
    requires info.DictNode? || info.InstanceNode?
    requires i <= |info.entries|
    decreases info, 0, |info.entries| - i
  {
    if i == |info.entries| then 0
    else
      var e := info.entries[i];
      assert e in info.entries;
      assert e.1 < e && e < info;
      1 + Size(e.1) + EntriesSize(info, i + 1)
  }

  /** The direct child nodes that denote values: items, or the values of an item dict. */
  function Kids(info: FabInfo): seq<Node> {
    match info
    case ListNode(_, items) => items
    case TupleNode(_, items) => items
    case DictNode(_, entries) => ValuesOf(entries)
    case InstanceNode(_, _, entries) => ValuesOf(entries)
    case _ => []
  }

  lemma {:induction false} EntriesSizeIs(info: FabInfo, i: nat)
    requires info.DictNode? || info.InstanceNode?
    requires i <= |info.entries|
    ensures EntriesSize(info, i) == (|info.entries| - i) + SeqSize(ValuesOf(info.entries)[i..])
    decreases |info.entries| - i
  {
    var vs := ValuesOf(info.entries);
    if i < |info.entries| {
      EntriesSizeIs(info, i + 1);
      assert vs[i..][1..] == vs[i + 1..];
    }
  }

  /** Every child is smaller than its parent. */
  lemma KidsSmaller(info: FabInfo)
    ensures SeqSize(Kids(info)) < InfoSize(info)
  {
    if info.DictNode? || info.InstanceNode? {
      EntriesSizeIs(info, 0);
      assert ValuesOf(info.entries)[0..] == ValuesOf(info.entries);
    }
  }

  /** The memo id a node introduces, if any. */
  function Own(info: FabInfo): set<nat> {
    if info.IsIntro() then {info.memoId} else {}
  }

  /** The memo ids a tree introduces. */
  function Ids(n: Node): set<nat>
    decreases Size(n), 0
  {
    match n
    case Bare(_) => {}
    case Fab(info) =>
      KidsSmaller(info);
      Own(info) + SeqIds(Kids(info))
  }

  function SeqIds(ns: seq<Node>): set<nat>
    decreases SeqSize(ns), 1
  {
    if |ns| == 0 then {} else Ids(ns[0]) + SeqIds(ns[1..])
  }

  /** No memo id is introduced twice in the tree. */
  predicate Unique(n: Node)
    decreases Size(n), 0
  {
    match n
    case Bare(_) => true
    case Fab(info) =>
      KidsSmaller(info);
      Own(info) !! SeqIds(Kids(info)) && UniqueSeq(Kids(info))
  }

  predicate UniqueSeq(ns: seq<Node>)
    decreases SeqSize(ns), 1
  {
    |ns| == 0 || (Unique(ns[0]) && Ids(ns[0]) !! SeqIds(ns[1..]) && UniqueSeq(ns[1..]))
  }

  /** Every introducing node's memo id is below every id introduced beneath it. */
  predicate ParentFirst(n: Node)
    decreases Size(n), 0
  {
    match n
    case Bare(_) => true
    case Fab(info) =>
      KidsSmaller(info);
      (info.IsIntro() ==> forall m :: m in SeqIds(Kids(info)) ==> info.memoId < m)
      && ParentFirstSeq(Kids(info))
  }

  predicate ParentFirstSeq(ns: seq<Node>)
    decreases SeqSize(ns), 1
  {
    |ns| == 0 || (ParentFirst(ns[0]) && ParentFirstSeq(ns[1..]))
  }

  /** The ids of a sequence are those of its elements. */
  lemma {:induction false} SeqIdsHas(ns: seq<Node>, k: nat)
    requires k < |ns|
    ensures Ids(ns[k]) <= SeqIds(ns)
    decreases k
  {
    if k > 0 {
      SeqIdsHas(ns[1..], k - 1);
    }
  }

  lemma {:induction false} SeqIdsAppend(a: seq<Node>, b: seq<Node>)
    ensures SeqIds(a + b) == SeqIds(a) + SeqIds(b)
    decreases |a|
  {
    if |a| == 0 {
      assert a + b == b;
    } else {
      assert (a + b)[0] == a[0] && (a + b)[1..] == a[1..] + b;
      SeqIdsAppend(a[1..], b);
    }
  }
}
