/** What a saved tree means: the object graph both the serializer and the builder must
    agree with. A memo id stands for the value bound to it; an introducing node stands for
    an object whose contents are the values its children stand for. */
module Decoding {
  import opened Values
  import opened Nodes

  /** A scalar as a value. */
  function LitOf(l: Literal): Value {
    Lit(l)
  }

  /** The value each memo id stands for. */
  type Bindings = map<nat, Value>

  /** Every memo id the node itself uses is bound. */
  predicate Binds(n: Node, M: Bindings) {
    n.Fab? && !n.info.TypeNode? ==> n.info.memoId in M
  }

  /** The value a node stands for: a scalar itself, a class, or the value its memo id is
      bound to (introduced here or referred back to). */
  function Val(n: Node, M: Bindings): Value
    requires Binds(n, M)
  {
    match n
    case Bare(l) => Lit(l)
    case Fab(info) => if info.TypeNode? then Class(info.cls) else M[info.memoId]
  }

  predicate BindsAll(ns: seq<Node>, M: Bindings) {
    forall k :: 0 <= k < |ns| ==> Binds(ns[k], M)
  }

  function Vals(ns: seq<Node>, M: Bindings): (r: seq<Value>)
    requires BindsAll(ns, M)
    ensures |r| == |ns| && forall k :: 0 <= k < |ns| ==> r[k] == Val(ns[k], M)
  {
    seq(|ns|, k requires 0 <= k < |ns| && BindsAll(ns, M) => Val(ns[k], M))
  }

  function PairVals(es: seq<(Literal, Node)>, M: Bindings): (r: seq<(Literal, Value)>)
    requires BindsAll(ValuesOf(es), M)
    ensures |r| == |es| && forall k :: 0 <= k < |es| ==> r[k] == (es[k].0, Val(es[k].1, M))
  {
    seq(|es|, k requires 0 <= k < |es| && BindsAll(ValuesOf(es), M) => (es[k].0, Val(ValuesOf(es)[k], M)))
  }

  /** The object an introducing node stands for: a list or tuple of its items' values, or a
      dict or instance built by assigning each key its value's value in order. */
  function Expected(info: FabInfo, M: Bindings): HeapObj
    requires info.IsIntro() && BindsAll(Kids(info), M)
  {
    match info
    case ListNode(_, items) => ListObj(Vals(items, M))
    case TupleNode(_, items) => TupleObj(Vals(items, M))
    case DictNode(_, entries) => DictObj(AssignAll([], PairVals(entries, M)))
    case InstanceNode(c, _, entries) => InstanceObj(c, AssignAll([], PairVals(entries, M)))
  }

  /** The object bound to an introducing node's memo id is the object the node stands for. */
  predicate Described(h: Heap, M: Bindings, info: FabInfo) {
    && info.IsIntro() && info.memoId in M && M[info.memoId].Obj? && M[info.memoId].id < |h|
    && BindsAll(Kids(info), M) && h[M[info.memoId].id] == Expected(info, M)
  }

  /** Every introducing node of the tree is described. */
  predicate AllDescribed(h: Heap, M: Bindings, n: Node)
    decreases Size(n), 0
  {
    match n
    case Bare(_) => true
    case Fab(info) =>
      KidsSmaller(info);
      (info.IsIntro() ==> Described(h, M, info)) && AllDescribedSeq(h, M, Kids(info))
  }

  predicate AllDescribedSeq(h: Heap, M: Bindings, ns: seq<Node>)
    decreases SeqSize(ns), 1
  {
    |ns| == 0 || (AllDescribed(h, M, ns[0]) && AllDescribedSeq(h, M, ns[1..]))
  }

  /** The tree `n` stands for the value `v` of heap `h`, memo id `m` standing for `M[m]`. */
  predicate Decodes(h: Heap, M: Bindings, n: Node, v: Value) {
    Binds(n, M) && Val(n, M) == v && AllDescribed(h, M, n)
  }

  /** `M'` keeps every binding of `M`. */
  predicate Extends(M: Bindings, M': Bindings) {
    forall m :: m in M ==> m in M' && M'[m] == M[m]
  }

  /** No two memo ids stand for the same value. */
  predicate OneToOne(M: Bindings) {
    forall m1, m2 :: m1 in M && m2 in M && m1 != m2 ==> M[m1] != M[m2]
  }

  /** `h'` holds the same objects as `h` at every address bound to one of `ids`. */
  predicate Agree(h: Heap, h': Heap, M: Bindings, ids: set<nat>) {
    forall m :: m in ids && m in M && M[m].Obj? && M[m].id < |h| ==> M[m].id < |h'| && h'[M[m].id] == h[M[m].id]
  }

  lemma ValStable(n: Node, M: Bindings, M': Bindings)
    requires Binds(n, M) && Extends(M, M')
    ensures Binds(n, M') && Val(n, M') == Val(n, M)
  {
  }

  /** Growing the bindings keeps an item list's or item dict's values. */
  lemma ValsStable(ns: seq<Node>, M: Bindings, M': Bindings)
    requires BindsAll(ns, M) && Extends(M, M')
    ensures BindsAll(ns, M') && Vals(ns, M') == Vals(ns, M)
  {
  }

  lemma ValsCons(ns: seq<Node>, M: Bindings)
    requires |ns| > 0 && BindsAll(ns, M)
    ensures BindsAll(ns[1..], M) && Vals(ns, M) == [Val(ns[0], M)] + Vals(ns[1..], M)
  {
  }

  lemma PairValsCons(es: seq<(Literal, Node)>, M: Bindings)
    requires |es| > 0 && BindsAll(ValuesOf(es), M)
    ensures BindsAll(ValuesOf(es[1..]), M)
    ensures Interleave(PairVals(es, M), LitOf) == [Lit(es[0].0), Val(es[0].1, M)] + Interleave(PairVals(es[1..], M), LitOf)
  {
    assert forall k :: 0 <= k < |es| - 1 ==> ValuesOf(es[1..])[k] == ValuesOf(es)[k + 1];
    assert PairVals(es, M)[1..] == PairVals(es[1..], M);
  }

  lemma PairValsStable(es: seq<(Literal, Node)>, M: Bindings, M': Bindings)
    requires BindsAll(ValuesOf(es), M) && Extends(M, M')
    ensures BindsAll(ValuesOf(es), M') && PairVals(es, M') == PairVals(es, M)
  {
  }

  lemma ExpectedStable(info: FabInfo, M: Bindings, M': Bindings)
    requires info.IsIntro() && BindsAll(Kids(info), M) && Extends(M, M')
    ensures BindsAll(Kids(info), M') && Expected(info, M') == Expected(info, M)
  {
    match info
    case ListNode(_, items) =>
      assert Vals(items, M') == Vals(items, M);
    case TupleNode(_, items) =>
      assert Vals(items, M') == Vals(items, M);
    case DictNode(_, entries) =>
      assert PairVals(entries, M') == PairVals(entries, M);
    case InstanceNode(_, _, entries) =>
      assert PairVals(entries, M') == PairVals(entries, M);
  }

  lemma OneDescribedStable(h: Heap, h': Heap, M: Bindings, M': Bindings, info: FabInfo)
    requires Described(h, M, info) && Extends(M, M') && Agree(h, h', M, {info.memoId})
    ensures Described(h', M', info)
  {
    ExpectedStable(info, M, M');
  }

  /** Descriptions survive growing the bindings and changing only other objects. */
  lemma {:induction false} DescribedStable(h: Heap, h': Heap, M: Bindings, M': Bindings, n: Node)
    requires AllDescribed(h, M, n) && Extends(M, M') && Agree(h, h', M, Ids(n))
    ensures AllDescribed(h', M', n)
    decreases Size(n), 0
  {
    match n
    case Bare(_) =>
    case Fab(info) =>
      KidsSmaller(info);
      if info.IsIntro() {
        OneDescribedStable(h, h', M, M', info);
      }
      DescribedSeqStable(h, h', M, M', Kids(info));
  }

  lemma {:induction false} DescribedSeqStable(h: Heap, h': Heap, M: Bindings, M': Bindings, ns: seq<Node>)
    requires AllDescribedSeq(h, M, ns) && Extends(M, M') && Agree(h, h', M, SeqIds(ns))
    ensures AllDescribedSeq(h', M', ns)
    decreases SeqSize(ns), 1
  {
    if |ns| > 0 {
      DescribedStable(h, h', M, M', ns[0]);
      DescribedSeqStable(h, h', M, M', ns[1..]);
    }
  }
}
