/** Saving and then loading: when both succeed, the loaded graph is a fresh copy of the
    part of the saved graph the value reaches, related to it by a one-to-one renaming of
    objects. */
module RoundTrip {
  import opened Results
  import opened Values
  import opened Nodes
  import opened Decoding
  import opened Serializer
  import opened Builder
  import opened SaverProofs
  import opened BuilderTheorem

  /** Which object of the copy stands for which original object. */
  type Renaming = map<ObjId, ObjId>

  function RenameValue(v: Value, f: Renaming): Value {
    if v.Obj? && v.id in f then Obj(f[v.id]) else v
  }

  function RenameSeq(vs: seq<Value>, f: Renaming): seq<Value> {
    seq(|vs|, i requires 0 <= i < |vs| => RenameValue(vs[i], f))
  }

  function RenameEntries(es: Entries, f: Renaming): Entries {
    seq(|es|, i requires 0 <= i < |es| => (es[i].0, RenameValue(es[i].1, f)))
  }

  function RenameObj(o: HeapObj, f: Renaming): HeapObj {
    match o
    case ListObj(items) => ListObj(RenameSeq(items, f))
    case TupleObj(items) => TupleObj(RenameSeq(items, f))
    case DictObj(entries) => DictObj(RenameEntries(entries, f))
    case InstanceObj(c, fields) => InstanceObj(c, RenameEntries(fields, f))
    case Opaque(c) => Opaque(c)
  }

  /** Every object an object holds is renamed. */
  predicate ChildrenIn(o: HeapObj, f: Renaming) {
    forall i :: 0 <= i < |Children(o)| && Children(o)[i].Obj? ==> Children(o)[i].id in f
  }

  /** `f` maps the objects of `h` it renames one-to-one onto objects of `h'` holding the
      renamed contents, and renames everything those objects hold. */
  predicate Iso(h: Heap, h': Heap, f: Renaming) {
    && (forall o :: o in f ==> RenamedAt(h, h', f, o))
    && (forall o1, o2 :: o1 in f && o2 in f && o1 != o2 ==> f[o1] != f[o2])
  }

  /** `f` renames object `o` of `h`, and everything it holds, onto its copy in `h'`. */
  predicate RenamedAt(h: Heap, h': Heap, f: Renaming, o: ObjId) {
    o in f && o < |h| && f[o] < |h'| && ChildrenIn(h[o], f) && h'[f[o]] == RenameObj(h[o], f)
  }

  /** Each memo id `L` binds stands in `M` for an object that `f` renames to `L`'s. */
  predicate Matches(M: Bindings, L: Bindings, f: Renaming) {
    forall m :: m in L ==> m in M && M[m].Obj? && L[m].Obj? && M[m].id in f && f[M[m].id] == L[m].id
  }

  lemma RenameEntriesCons(d: Entries, f: Renaming)
    requires |d| > 0
    ensures RenameEntries(d, f) == [(d[0].0, RenameValue(d[0].1, f))] + RenameEntries(d[1..], f)
  {
  }

  /** Renaming commutes with assigning a key. */
  lemma {:induction false} RenameAssign(d: Entries, k: Literal, v: Value, f: Renaming)
    ensures RenameEntries(Assign(d, k, v), f) == Assign(RenameEntries(d, f), k, RenameValue(v, f))
    decreases |d|
  {
    var rd := RenameEntries(d, f);
    if |d| > 0 {
      RenameEntriesCons(d, f);
      assert rd[0].0 == d[0].0 && rd[1..] == RenameEntries(d[1..], f);
      if d[0].0 == k {
        RenameEntriesCons(Assign(d, k, v), f);
      } else {
        RenameAssign(d[1..], k, v, f);
        RenameEntriesCons(Assign(d, k, v), f);
      }
    }
  }

  /** Renaming commutes with assigning pairs in turn. */
  lemma {:induction false} RenameAssignAll(d: Entries, pairs: Entries, f: Renaming)
    ensures RenameEntries(AssignAll(d, pairs), f) == AssignAll(RenameEntries(d, f), RenameEntries(pairs, f))
    decreases |pairs|
  {
    if |pairs| > 0 {
      var rp := RenameEntries(pairs, f);
      RenameAssign(d, pairs[0].0, pairs[0].1, f);
      RenameAssignAll(Assign(d, pairs[0].0, pairs[0].1), pairs[1..], f);
      RenameEntriesCons(pairs, f);
      assert rp[0] == (pairs[0].0, RenameValue(pairs[0].1, f)) && rp[1..] == RenameEntries(pairs[1..], f);
    }
  }

  /** A node bound on both sides stands for corresponding values. */
  lemma KidRename(c: Node, M: Bindings, L: Bindings, f: Renaming)
    requires Binds(c, M) && Binds(c, L) && Matches(M, L, f)
    ensures RenameValue(Val(c, M), f) == Val(c, L)
    ensures Val(c, M).Obj? ==> Val(c, M).id in f
  {
  }

  /** A node's object under `M`, renamed, is its object under `L`. */
  lemma ExpectedRename(info: FabInfo, M: Bindings, L: Bindings, f: Renaming)
    requires info.IsIntro() && BindsAll(Kids(info), M) && BindsAll(Kids(info), L) && Matches(M, L, f)
    ensures RenameObj(Expected(info, M), f) == Expected(info, L)
    ensures ChildrenIn(Expected(info, M), f)
  {
    var ks := Kids(info);
    forall k | 0 <= k < |ks|
      ensures RenameValue(Val(ks[k], M), f) == Val(ks[k], L)
      ensures Val(ks[k], M).Obj? ==> Val(ks[k], M).id in f
    {
      KidRename(ks[k], M, L, f);
    }
    match info
    case ListNode(_, items) =>
      assert RenameSeq(Vals(items, M), f) == Vals(items, L);
    case TupleNode(_, items) =>
      assert RenameSeq(Vals(items, M), f) == Vals(items, L);
    case DictNode(_, es) =>
      MappingRename(es, M, L, f);
    case InstanceNode(_, _, es) =>
      MappingRename(es, M, L, f);
  }

  lemma MappingRename(es: seq<(Literal, Node)>, M: Bindings, L: Bindings, f: Renaming)
    requires BindsAll(ValuesOf(es), M) && BindsAll(ValuesOf(es), L)
    requires forall k :: 0 <= k < |es| ==> RenameValue(Val(es[k].1, M), f) == Val(es[k].1, L)
    requires forall k :: 0 <= k < |es| ==> Val(es[k].1, M).Obj? ==> Val(es[k].1, M).id in f
    ensures RenameEntries(AssignAll([], PairVals(es, M)), f) == AssignAll([], PairVals(es, L))
    ensures var d := AssignAll([], PairVals(es, M));
      forall i :: 0 <= i < |d| && ValuesOf(d)[i].Obj? ==> ValuesOf(d)[i].id in f
  {
    var pm := PairVals(es, M);
    assert RenameEntries(pm, f) == PairVals(es, L);
    RenameAssignAll([], pm, f);
    assert RenameEntries([], f) == [];
    var d := AssignAll([], pm);
    AssignAllFrom([], pm);
    forall i | 0 <= i < |d| && ValuesOf(d)[i].Obj?
      ensures ValuesOf(d)[i].id in f
    {
      assert d[i] in pm;
      var k :| 0 <= k < |pm| && pm[k] == d[i];
    }
  }

  /** Every id a described tree introduces is bound to an object of the heap. */
  lemma {:induction false} IdsBound(h: Heap, M: Bindings, n: Node)
    requires AllDescribed(h, M, n)
    ensures forall m :: m in Ids(n) ==> m in M && M[m].Obj? && M[m].id < |h|
    decreases Size(n), 0
  {
    if n.Fab? {
      KidsSmaller(n.info);
      IdsBoundSeq(h, M, Kids(n.info));
    }
  }

  lemma {:induction false} IdsBoundSeq(h: Heap, M: Bindings, ns: seq<Node>)
    requires AllDescribedSeq(h, M, ns)
    ensures forall m :: m in SeqIds(ns) ==> m in M && M[m].Obj? && M[m].id < |h|
    decreases SeqSize(ns), 1
  {
    if |ns| > 0 {
      IdsBound(h, M, ns[0]);
      IdsBoundSeq(h, M, ns[1..]);
    }
  }

  /** The object memo id `m` stands for in `h`, renamed, is the one it stands for in `h'`. */
  predicate Corresponds(h: Heap, h': Heap, M: Bindings, L: Bindings, f: Renaming, m: nat) {
    && m in M && M[m].Obj? && M[m].id < |h| && m in L && L[m].Obj? && L[m].id < |h'|
    && ChildrenIn(h[M[m].id], f) && h'[L[m].id] == RenameObj(h[M[m].id], f)
  }

  /** A tree described in both graphs makes each id it introduces correspond. */
  lemma {:induction false} IsoTree(h: Heap, h': Heap, M: Bindings, L: Bindings, f: Renaming, n: Node)
    requires AllDescribed(h, M, n) && AllDescribed(h', L, n) && Matches(M, L, f)
    ensures forall m :: m in Ids(n) ==> Corresponds(h, h', M, L, f, m)
    decreases Size(n), 0
  {
    if n.Fab? {
      var info := n.info;
      KidsSmaller(info);
      if info.IsIntro() {
        ExpectedRename(info, M, L, f);
      }
      IsoSeq(h, h', M, L, f, Kids(info));
    }
  }

  lemma {:induction false} IsoSeq(h: Heap, h': Heap, M: Bindings, L: Bindings, f: Renaming, ns: seq<Node>)
    requires AllDescribedSeq(h, M, ns) && AllDescribedSeq(h', L, ns) && Matches(M, L, f)
    ensures forall m :: m in SeqIds(ns) ==> Corresponds(h, h', M, L, f, m)
    decreases SeqSize(ns), 1
  {
    if |ns| > 0 {
      IsoTree(h, h', M, L, f, ns[0]);
      IsoSeq(h, h', M, L, f, ns[1..]);
    }
  }

  /** The copy `h'` holds a renaming of what `v` reaches in `h`, renamed onto objects the
      bindings `L` name, and `v'` is `v` renamed. */
  predicate Copies(h: Heap, h': Heap, L: Bindings, v: Value, v': Value, f: Renaming) {
    && Iso(h, h', f) && (v.Obj? ==> v.id in f) && RenameValue(v, f) == v'
    && forall o :: o in f ==> Obj(f[o]) in L.Values
  }

  /** The renaming that sends each object a tree's id stands for in `M` to the one it
      stands for in `L`. */
  ghost function Pairing(M: Bindings, L: Bindings, n: Node): (f: Renaming)
    requires forall m :: m in Ids(n) ==> m in M && M[m].Obj? && m in L && L[m].Obj?
    requires OneToOne(M)
    ensures forall m :: m in Ids(n) ==> M[m].id in f && f[M[m].id] == L[m].id
    ensures forall o :: o in f ==> exists m :: m in Ids(n) && M[m].id == o
  {
    map m | m in Ids(n) :: M[m].id := L[m].id
  }

  lemma PairingIso(h: Heap, h': Heap, M: Bindings, L: Bindings, n: Node, f: Renaming)
    requires forall m :: m in Ids(n) ==> m in M && M[m].Obj? && m in L && L[m].Obj?
    requires OneToOne(M) && OneToOne(L) && f == Pairing(M, L, n)
    requires forall m :: m in Ids(n) ==> Corresponds(h, h', M, L, f, m)
    ensures Iso(h, h', f) && forall o :: o in f ==> Obj(f[o]) in L.Values
  {
    PairingOnto(h, h', M, L, n, f);
    PairingNamed(M, L, n, f);
    PairingOneToOne(M, L, n, f);
  }

  lemma PairingOnto(h: Heap, h': Heap, M: Bindings, L: Bindings, n: Node, f: Renaming)
    requires forall m :: m in Ids(n) ==> m in M && M[m].Obj? && m in L && L[m].Obj?
    requires OneToOne(M) && f == Pairing(M, L, n)
    requires forall m :: m in Ids(n) ==> Corresponds(h, h', M, L, f, m)
    ensures forall o :: o in f ==> RenamedAt(h, h', f, o)
  {
    forall o | o in f
      ensures RenamedAt(h, h', f, o)
    {
      var m := PairedId(M, L, n, f, o);
      PairedAt(h, h', M, L, f, m);
    }
  }

  lemma PairingNamed(M: Bindings, L: Bindings, n: Node, f: Renaming)
    requires forall m :: m in Ids(n) ==> m in M && M[m].Obj? && m in L && L[m].Obj?
    requires OneToOne(M) && f == Pairing(M, L, n)
    ensures forall o :: o in f ==> Obj(f[o]) in L.Values
  {
    forall o | o in f
      ensures Obj(f[o]) in L.Values
    {
      var m := PairedId(M, L, n, f, o);
      assert L[m] == Obj(f[o]);
    }
  }

  /** An object the pairing covers is the one some id of the tree stands for. */
  lemma PairedId(M: Bindings, L: Bindings, n: Node, f: Renaming, o: ObjId) returns (m: nat)
    requires forall m :: m in Ids(n) ==> m in M && M[m].Obj? && m in L && L[m].Obj?
    requires OneToOne(M) && f == Pairing(M, L, n) && o in f
    ensures m in Ids(n) && M[m].id == o && f[o] == L[m].id
  {
    m :| m in Ids(n) && M[m].id == o;
  }

  /** One corresponding id: its object, renamed, is the copy's object, which `L` names. */
  lemma PairedAt(h: Heap, h': Heap, M: Bindings, L: Bindings, f: Renaming, m: nat)
    requires Corresponds(h, h', M, L, f, m) && M[m].id in f && f[M[m].id] == L[m].id
    ensures RenamedAt(h, h', f, M[m].id)
  {
  }

  lemma PairingOneToOne(M: Bindings, L: Bindings, n: Node, f: Renaming)
    requires forall m :: m in Ids(n) ==> m in M && M[m].Obj? && m in L && L[m].Obj?
    requires OneToOne(M) && OneToOne(L) && f == Pairing(M, L, n)
    ensures forall o1, o2 :: o1 in f && o2 in f && o1 != o2 ==> f[o1] != f[o2]
  {
    forall o1, o2 | o1 in f && o2 in f && o1 != o2
      ensures f[o1] != f[o2]
    {
      var m1 :| m1 in Ids(n) && M[m1].id == o1;
      var m2 :| m2 in Ids(n) && M[m2].id == o2;
      assert L[m1] != L[m2];
    }
  }

  /** Two graphs that one tree describes, each binding distinct ids to distinct values and
      the second binding only ids the tree introduces, are renamings of each other. */
  lemma SameTree(h: Heap, h': Heap, M: Bindings, L: Bindings, n: Node, v: Value, v': Value)
    requires Decodes(h, M, n, v) && Decodes(h', L, n, v') && OneToOne(M) && OneToOne(L) && L.Keys <= Ids(n)
    ensures exists f :: Copies(h, h', L, v, v', f)
  {
    IdsBound(h, M, n);
    IdsBound(h', L, n);
    var f := Pairing(M, L, n);
    assert Matches(M, L, f) by {
      forall m | m in L
        ensures M[m].id in f && f[M[m].id] == L[m].id
      {
        assert m in Ids(n);
      }
    }
    IsoTree(h, h', M, L, f, n);
    PairingIso(h, h', M, L, n, f);
    if n.Fab? && !n.info.TypeNode? {
      assert n.info.memoId in Ids(n);
    }
    assert Copies(h, h', L, v, v', f);
  }

  /** `h'` extends `world` with a copy of what `v` reaches in `h`: the renaming sends every
      object it covers to an object allocated after `world`, and `v'` is `v` renamed. */
  predicate FreshCopy(h: Heap, world: Heap, h': Heap, v: Value, v': Value, f: Renaming) {
    && Iso(h, h', f) && (v.Obj? ==> v.id in f) && RenameValue(v, f) == v'
    && (forall o :: o in f ==> |world| <= f[o])
    && |world| <= |h'| && h'[..|world|] == world
  }

  lemma CopyIsFresh(h: Heap, world: Heap, h': Heap, L: Bindings, v: Value, v': Value, f: Renaming)
    requires Copies(h, h', L, v, v', f) && |world| <= |h'| && h'[..|world|] == world
    requires forall m :: m in L ==> L[m].Obj? && |world| <= L[m].id
    ensures FreshCopy(h, world, h', v, v', f)
  {
    forall o | o in f
      ensures |world| <= f[o]
    {
      var m :| m in L && L[m] == Obj(f[o]);
    }
  }

  /** Saving a value and loading the tree back into a heap `world`: when both succeed, the
      loaded heap keeps `world` and adds a fresh, one-to-one copy of everything the value
      reaches, and the loaded root is the value under that renaming. */
  lemma SaveLoadRoundTrip(reg: Registry, heap: Heap, world: Heap, v: Value)
    requires WellFormed(heap) && ValidIn(heap, v) && Save(heap, v).Ok?
    requires Load(reg, world, Save(heap, v).value).Ok?
    ensures var (h', v') := Load(reg, world, Save(heap, v).value).value;
      exists f :: FreshCopy(heap, world, h', v, v', f)
  {
    var n := Save(heap, v).value;
    SaveDecodes(heap, v);
    var M := SavedBindings(heap, v);
    LoadDecodes(reg, world, n);
    var st := LoadState(reg, world, n).value;
    assert Load(reg, world, n).value == (st.heap, st.stack[0]);
    SameTree(heap, st.heap, M, st.memo, n, v, st.stack[0]);
    var f :| Copies(heap, st.heap, st.memo, v, st.stack[0], f);
    CopyIsFresh(heap, world, st.heap, st.memo, v, st.stack[0], f);
  }

  /** Loading into the very heap that was saved gives a root object that is not the
      original one: equal in contents, never identical. */
  lemma LoadedIsNotOriginal(reg: Registry, heap: Heap, v: Value)
    requires WellFormed(heap) && ValidIn(heap, v) && v.Obj? && Save(heap, v).Ok?
    requires Load(reg, heap, Save(heap, v).value).Ok?
    ensures Load(reg, heap, Save(heap, v).value).value.1 != v
  {
    SaveLoadRoundTrip(reg, heap, heap, v);
    var (h', v') := Load(reg, heap, Save(heap, v).value).value;
    var f :| FreshCopy(heap, heap, h', v, v', f);
    assert v' == Obj(f[v.id]);
    assert |heap| <= f[v.id];
    assert v.id < |heap|;
  }
}
