# fablab graph codec, modelled in Dafny

fablab turns a possibly cyclic Python object graph into a JSON-compatible tree of tagged
nodes (`save`, the `Serializer` of `src/fablab/savers.py`) and rebuilds a graph from such a
tree (`load`, the `Builder` of `src/fablab/loaders.py`). This project models both engines as
pure functions over explicit state and proves what they compute.

- **Object graph** (`values.dfy`, module `Values`). A heap is a sequence of objects and an
  object's identity is its index. A value is a literal (int, float, str), a heap object or a
  class named by module and class name. The heap objects are lists, tuples, dicts,
  instances and opaque objects. Literals, lists, tuples and dicts are of exactly those
  types, and classes have metaclass `type`; anything else is an instance or opaque. Dicts
  and instance `__dict__`s are insertion-ordered sequences of literal-keyed pairs, and
  `Assign` is `d[k] = v`.
- **Node tree** (`nodes.dfy`, module `Nodes`). A node is a bare literal or a `*fab` node:
  `reference`, `list`, `tuple`, `dict`, `type` or `class_instance`. This folds in the tag
  vocabulary of `common.py`. `IsBuildable` models `is_buildable`.
- **Serializer** (`serializer.dfy`). It threads the memo, the accumulator `stack` and the
  `meta_stack` through `save_any` and the savers of each kind.
  - The memo is keyed by identity: heap objects by index, classes by qualified name and
    literals by value.
  - A `list`, `tuple`, `dict` or `class_instance` node is put on the accumulator first. Its
    children go into a child accumulator, which is written into the node after the
    context is popped. This is the aliasing of `saved_items` in the source.
- **Builder** (`builder.dfy`). It threads the heap, the memo, both stacks and the job queues.
  - Lists, dicts and instances are allocated empty and memo-registered, and a `Fill` job
    is queued for their contents.
  - A tuple gets a queue of its own headed by its `FiniTuple` job. Its items are loaded
    behind that job, and then the queue runs.
  - `Drain` is the `while self.jobs` loop of `load`.
  - Every failure is a `Fault` value: a missing memo id, an odd key/value accumulator, an
    unhashable key, an unresolvable class, a value the serializer cannot take, or a memo
    entry of the wrong kind.
- **Meaning of a tree** (`decoding.dfy`). Given bindings from memo ids to values, a tree
  stands for a value (`Val`). Each introducing node describes the object its id is bound
  to (`Expected`, `AllDescribed`).
- **Theorems.**
  - `saver_proofs.dfy`: `save` emits a tree that stands for the saved object. Ids are
    introduced once each and parents before children.
  - `builder_proofs.dfy`: when `load` succeeds on such a tree, every id is bound to a new
    object holding what its node describes.
  - `round_trip.dfy`: composing the two, a successful round trip yields a fresh,
    one-to-one renamed copy of everything the saved value reaches.
  - `save_totality.dfy`: `save` succeeds on every value whose objects all have a field
    mapping, whatever they share and however they cycle.
  - `load_totality.dfy`: `load` succeeds on every tree that introduces each id once, has
    no `reference` node and names only classes that import.
  - `tree_round_trip.dfy`: a value that reaches no object and no class twice is saved
    without a `reference`, so its round trip succeeds and gives back a fresh copy.
- **Scenarios.** `scenarios.dfy` and `graph_scenarios.dfy` take the integration tests'
  graphs through both engines, and also three graphs on which the round trip fails.

Some consequences of the code are easy to miss:

- **Memo ids are not dense over objects.** `save_any` gives every value it does not skip
  a memo slot, literals included, and a recurring literal re-takes its slot.
- **A class seen twice becomes a `reference`.** `save_type` writes no memo id, so no node
  introduces the id the reference carries, and loading it fails with a missing memo id.
- **A tuple's finish job runs before the fill jobs of its items.** `load_tuple` queues
  `fini_tuple` ahead of the items' fills, so the tuple is built from its items'
  placeholders and registered before they are filled.
- **A reference to an object first saved inside an earlier sibling fails to load.** A
  list's contents are loaded by a deferred fill, so in `root = [a, c]` with `a = [c]`,
  `root`'s reference to `c` is looked up before `a`'s fill has introduced `c`
  (`GraphScenarios.SiblingRoundTripFails`).
- **A cycle through two directly nested tuples fails to load.** The cycle reaches a list
  that points back to the outer tuple, and that list is loaded before the outer tuple is
  built (`GraphScenarios.NestedCycleRoundTripFails`).
- **A fill writes into whatever its memo id is bound to last.** No loader checks the kind
  of a memo entry before a fill uses it, and a fill with nothing to assign never touches
  it (`GraphScenarios.LoadRebound`).

The round trip is therefore proved in two parts. Whenever both `save` and `load` succeed,
the result is a faithful copy (`RoundTrip.SaveLoadRoundTrip`). And both succeed on every
value that reaches no object or class twice and whose classes import
(`TreeRoundTrip.SaveLoadSucceeds`).

## Model

| member | source | states |
|---|---|---|
| Serializer.PushContext | src/fablab/savers.py:36-43 | `push_context` starts an empty accumulator one level deeper, and `pop_context` restores exactly the state pushed from |
| Serializer.SaveAny | src/fablab/savers.py:17-34 | a float, int or str is emitted as itself however often it recurs; any other value already in the memo becomes a `reference` carrying its first index, memo unchanged; a first-seen value takes index `len(memo)`; a class yields a `type` node with no children; an object without a field mapping cannot be saved; exactly one node is added to the caller's accumulator, the context depth is restored, and object indices never change |
| Serializer.SaveItemList | src/fablab/savers.py:103-150 | `save_list`/`save_tuple` add one node of the matching kind, carrying the object's memo id, with one item node per element |
| Serializer.SaveItems | src/fablab/savers.py:144-148 | the item loop adds one node per remaining element to the child accumulator and leaves the context stack unchanged |
| Serializer.SaveItemDict | src/fablab/savers.py:152-187 | `save_dict`/`save_class_instance` add one `dict` node, or one `class_instance` node naming the class, carrying the object's memo id |
| Serializer.SaveEntries | src/fablab/savers.py:169-174 | the key/value loop adds exactly two nodes per entry, so the parity check never fires |
| Serializer.SavePair | src/fablab/savers.py:227-229 | one pass saves the key as its bare node, then the value's node |
| Serializer.Save | src/fablab/savers.py:245-256 | a literal root is returned bare, a class root as a `type` node, and an object root is never a reference and introduces memo id 0 |
| Builder.PushContext | src/fablab/loaders.py:25-30 | a fresh accumulator one level deeper, undone exactly by `pop_context` |
| Builder.PushJobs | src/fablab/loaders.py:32-37 | a fresh job queue one level deeper, undone exactly by `pop_jobs` |
| Builder.LoadAny | src/fablab/loaders.py:56-61 | exactly one value is pushed onto the caller's accumulator; context and job-stack depths are kept; the queue gains exactly the node's own fill job; old objects keep their kind |
| Builder.LoadFab | src/fablab/loaders.py:63-68 | dispatch on the tag keeps the same one-value, balanced-stacks promise |
| Builder.LoadReference | src/fablab/loaders.py:170-177 | a registered id pushes the very value registered under it and changes nothing else; an unregistered id is a lookup failure |
| Builder.LoadType | src/fablab/loaders.py:179-190 | a resolvable class is pushed as itself; an unresolvable one fails |
| Builder.LoadPlaceholder | src/fablab/loaders.py:97-107 | a list, dict or instance is allocated empty as a new object, memo-registered and pushed before any child is loaded, and its fill job is queued last |
| Builder.LoadTuple | src/fablab/loaders.py:72-87 | `load_tuple` pushes one value and leaves the caller's queue, contexts and job stack as they were |
| Builder.FiniTupleJob | src/fablab/loaders.py:89-95 | `fini_tuple` allocates a new tuple of the child accumulator, restores the parent context, pushes the tuple and registers it under its memo id |
| Builder.LoadItems | src/fablab/loaders.py:81-82 | the item loop pushes one value per item and queues exactly the items' fill jobs, in order |
| Builder.LoadEntries | src/fablab/loaders.py:149-151 | the key/value loop pushes two values per entry and queues exactly the values' fill jobs, in order |
| Builder.DoJobs | src/fablab/loaders.py:39-43 | `do_jobs` empties the queue; fills leave the accumulator as it was, while a leading tuple finish pops back to the parent accumulator plus the one tuple |
| Builder.RunJobs | src/fablab/loaders.py:40-41 | the same, from any position of the queue |
| Builder.RunJob | src/fablab/loaders.py:77-78 | a deferred fill leaves both stacks unchanged; a deferred tuple finish pops back to the parent with the tuple pushed |
| Builder.Target | src/fablab/loaders.py:141-145 | a fill finds its target exactly when its memo id is bound, and the target is the value bound last; an unbound id is a lookup failure |
| Builder.EmptyOf | src/fablab/loaders.py:97-102 | the placeholder is of the node's kind and holds nothing |
| Builder.LoadScoped | src/fablab/loaders.py:116-122 | in a fresh context and queue, the children are loaded and their fills run, leaving one value per item, or two per entry, on the child accumulator |
| Builder.LoadKids | src/fablab/loaders.py:118-119 | the children of a list, dict or instance push one value per item or two per entry and queue exactly their fill jobs |
| Builder.FiniList | src/fablab/loaders.py:110-125 | `fini_list` returns to the caller's context and queue unchanged and old objects keep their kind; it succeeds only when the memo entry is a list, since only a list has `extend` |
| Builder.AssignPairs | src/fablab/loaders.py:237-244 | with no pair the object is untouched; otherwise `obj.__dict__[key] = value` needs an instance and `obj[key] = value` a dict or a list, and the result keeps the object's kind, class and, for a list, its length |
| Builder.AssignIndices | src/fablab/loaders.py:159-166 | `obj[key] = item` on a list succeeds exactly when every key is an int index in range, negative ones counting from the end; the length is kept, slots no key picks keep their item, and the last pair's slot holds its value |
| Builder.Slot | src/fablab/loaders.py:165 | a list index picks a slot within the list, congruent to the index modulo the length |
| Builder.FiniMapping | src/fablab/loaders.py:141-168 | `fini_dict`/`fini_class_instance` return to the caller's context and queue unchanged, and old objects keep their kind; an unbound memo id is a lookup failure |
| Builder.Drain | src/fablab/loaders.py:48-52 | the loop runs until the queue is empty and leaves the accumulator and contexts as they were |
| Builder.LoadState | src/fablab/loaders.py:45-54 | `Builder.load` ends with the root alone on the accumulator and every stack and queue empty |
| Builder.Load | src/fablab/loaders.py:251-253 | a bare scalar comes back as itself with nothing allocated, and no existing object changes kind |
| Values.Assign | src/fablab/loaders.py:165 | `d[key] = item`: the key now maps to the item and every other key keeps its value |
| Values.AssignKeys | src/fablab/savers.py:182 | a key already present keeps its place in insertion order; a new key goes last |
| Values.AssignAllFresh | src/fablab/savers.py:235-238 | assigning pairs with distinct new keys appends them in order |
| Values.PairUp | src/fablab/savers.py:173-183 | pairing an accumulator fails on odd length, and succeeds exactly when it has even length and every key item can key a dict |
| Values.PairInto | src/fablab/loaders.py:159-166 | pairing into an existing mapping succeeds exactly when every key item can key a dict |
| Values.PairUpInterleave | src/fablab/savers.py:235-238 | pairing the accumulator a key/value loop leaves assigns its pairs in order |
| SaverProofs.SaveDecodes | src/fablab/savers.py:245-256 | the tree `save` returns stands for the saved value under bindings that give distinct values distinct ids; every id is introduced once, and a container's id comes before all ids beneath it |
| SaverProofs.SaveAnyOk | src/fablab/savers.py:17-34 | the node `save_any` emits stands for the value, and introduces only ids taken during that call |
| SaverProofs.SaveObjOk | src/fablab/savers.py:27-34 | a first-seen object is registered under `len(memo)`, then saved by its kind's saver into a node standing for it |
| SaverProofs.SaveItemListOk | src/fablab/savers.py:127-150 | a list or tuple node introduces the object's index and its items stand for the elements in order |
| SaverProofs.SaveItemsOk | src/fablab/savers.py:119-122 | the item nodes stand for the elements, in order, with fresh ids each introduced once |
| SaverProofs.SaveItemDictOk | src/fablab/savers.py:207-242 | a dict or instance node introduces the object's index and maps each key to a node standing for that key's value, in order |
| SaverProofs.SaveEntriesOk | src/fablab/savers.py:169-171 | the accumulator is each key's bare node followed by a node standing for its value |
| SaverProofs.SavePairOk | src/fablab/savers.py:228-229 | the value's node, saved after the key, stands for the value |
| SaverProofs.KeySaved | src/fablab/savers.py:170 | a key is saved as its bare literal and disturbs no object index |
| SaverProofs.Inv | src/fablab/savers.py:27-28 | every object or class index in the memo is read back as the value it was assigned to |
| SaverProofs.InvOneToOne | src/fablab/savers.py:27-28 | distinct objects and classes get distinct indices |
| BuilderProofs.LoadAnyOk | src/fablab/loaders.py:56-68 | `load_any` pushes the value the node stands for, binds only the node's own ids, each to a new object, and leaves a list, dict or instance as a bound empty placeholder |
| BuilderProofs.LoadTupleOk | src/fablab/loaders.py:72-95 | a tuple is registered under its id and pushed, and it and everything beneath it hold what the tree describes |
| BuilderProofs.TupleBuilt | src/fablab/loaders.py:89-95 | the finish job binds the tuple's id to a new tuple of the item values before any item fill runs |
| BuilderProofs.LoadItemsOk | src/fablab/loaders.py:81-82 | the item values are pushed in order and only the items' ids are bound |
| BuilderProofs.LoadEntriesOk | src/fablab/loaders.py:149-151 | each key and then its value's value is pushed, in entry order |
| BuilderProofs.RunFillsOk | src/fablab/loaders.py:39-43 | running the fills the children deferred completes every object beneath them |
| BuilderProofs.FillOk | src/fablab/loaders.py:110-125 | a fill turns the placeholder into the object its node describes, and completes everything beneath it |
| BuilderProofs.MappingFilled | src/fablab/loaders.py:157-166 | the accumulator a dict's children leave has even length, and pairing it into the empty placeholder gives the described dict or instance |
| BuilderProofs.LoadScopedOk | src/fablab/loaders.py:147-154 | the fill's children are loaded and their own fills run, so everything beneath is described |
| BuilderTheorem.LoadDecodes | src/fablab/loaders.py:251-253 | when `load` succeeds on a tree whose ids are introduced once each, the root is what the tree stands for; every id is bound to its own new object holding what its node describes; objects that existed before are untouched |
| BuilderTheorem.DrainRoot | src/fablab/loaders.py:48-52 | the root's queue holds at most the root's own fill, and draining runs it once |
| RoundTrip.SaveLoadRoundTrip | tests/integration/test_save_load.py:24-89 | when save and load both succeed, the loaded heap keeps every existing object and adds a fresh, one-to-one copy of all the saved value reaches, and the loaded root is the original under that renaming |
| RoundTrip.LoadedIsNotOriginal | tests/integration/test_save_load.py:24-32 | loading next to the original never returns the original object (for an empty tuple only under the model's allocation; see `Builder.FiniTupleJob` under Left out) |
| RoundTrip.SameTree | src/fablab/loaders.py:170-175 | two graphs described by one tree with one-to-one bindings are renamings of each other |
| Scenarios.SaveLits | src/fablab/savers.py:73-101 | scalars are saved as bare nodes in order, and no object or class is registered |
| Scenarios.LoadBares | src/fablab/loaders.py:56-59 | bare nodes push their scalars in order and change nothing else |
| Scenarios.SaveScalarSeq | src/fablab/savers.py:127-150 | a list or tuple of scalars is saved as one node of its kind, memo id 0, holding the bare scalars in order |
| Scenarios.LoadScalarList | src/fablab/loaders.py:97-125 | a list node of scalars loads as one new list of those scalars, allocated after every existing object |
| Scenarios.LoadScalarTuple | src/fablab/loaders.py:72-95 | a tuple node of scalars loads as one new tuple of those scalars |
| Scenarios.FillScalarList | src/fablab/loaders.py:110-125 | the fill extends the empty placeholder with the scalars, in item order, and changes nothing else |
| Scenarios.ScalarSeqRoundTrip | tests/integration/test_save_load.py:24-54 | a list or tuple of scalars comes back as a new object of the same kind with the same items |
| Scenarios.SaveScalarEntries | src/fablab/savers.py:169-171 | scalar entries leave each key's bare node, then its value's, in order |
| Scenarios.LoadBareEntries | src/fablab/loaders.py:149-151 | bare entries push each key, then its value's scalar, and change nothing else |
| Scenarios.SaveScalarItemDict | src/fablab/savers.py:152-187 | a dict of scalars is saved as one dict node holding each key with its value's bare node, in insertion order |
| Scenarios.SaveScalarDict | src/fablab/savers.py:245-256 | `save` of a dict of scalars returns that dict node with memo id 0 |
| Scenarios.AssignInterleaved | src/fablab/loaders.py:159-166 | pairing the interleaved accumulator of distinct keys into an empty dict gives back those entries in order |
| Scenarios.ScopedBareEntries | src/fablab/loaders.py:147-154 | the entries of a dict of scalars leave exactly the interleaved keys and scalars on the child accumulator |
| Scenarios.FillScalarDict | src/fablab/loaders.py:141-168 | the fill sets the empty placeholder to the scalars under their keys, in order, and changes nothing else |
| Scenarios.LoadScalarDict | src/fablab/loaders.py:127-168 | a dict node of scalars loads as one new dict with those entries |
| Scenarios.ScalarDictRoundTrip | tests/integration/test_save_load.py:35-43 | a dict of scalars comes back as a new dict with the same entries in order |
| GraphScenarios.SaveFreshSeq | src/fablab/savers.py:141-148 | a first-seen list or tuple adds one node holding what its items saved to, with the next memo index |
| GraphScenarios.SaveRecursiveTuple | tests/integration/test_save_load.py:69-74 | saving `(1, 2, [1, 2, <the tuple>], 3, 4)` makes the inner list refer back to the tuple's memo id 0 |
| GraphScenarios.LoadRecursiveTuple | src/fablab/loaders.py:72-95 | loading it gives a new list and a new tuple; the tuple holds the list, and the list's last item is the tuple |
| GraphScenarios.RecursiveTuplesRoundTrip | tests/integration/test_save_load.py:69-89 | the loaded tuple is not the original, its scalars are the original's, and its third item is a list of 1, 2 and the loaded tuple itself |
| GraphScenarios.SaveNestedTuple | tests/integration/test_save_load.py:57-61 | saving `(3, 4, (1, 2, 3))` gives an outer tuple node holding the inner tuple's node |
| GraphScenarios.LoadNestedTuple | src/fablab/loaders.py:72-95 | the inner tuple is built inside the outer tuple's item loop, and the outer tuple after it |
| GraphScenarios.LoadRootTuple | src/fablab/loaders.py:72-95 | a root tuple whose items queue nothing loads as one new tuple of the item values, returned as the root |
| GraphScenarios.NestedTupleRoundTrip | tests/integration/test_save_load.py:57-66 | the loaded tuple is a new one equal item by item to the original, its inner tuple a new one equal to the original inner tuple |
| GraphScenarios.SaveSibling | src/fablab/savers.py:23-25 | in `root = [a, c]` with `a = [c]`, `c` is saved inside `a` and `root`'s own item is a reference to it |
| GraphScenarios.LoadSiblingFails | src/fablab/loaders.py:170-175 | loading that tree fails: `c`'s id is looked up before `a`'s fill has introduced it |
| GraphScenarios.SiblingRoundTripFails | src/fablab/loaders.py:110-125 | the well-formed acyclic graph `root` does not survive a round trip |
| GraphScenarios.SaveNestedCycle | src/fablab/savers.py:103-150 | `t0 = (t1,)`, `t1 = (l,)`, `l = [t0]` is saved with `l` referring back to id 0 |
| GraphScenarios.LoadNestedCycleFails | src/fablab/loaders.py:72-95 | loading it fails: `l`'s fill runs in `t1`'s queue before `t0`'s finish job registers id 0 |
| GraphScenarios.NestedCycleRoundTripFails | src/fablab/loaders.py:170-175 | the cycle through two nested tuples does not survive a round trip |
| GraphScenarios.SaveTypeTwice | src/fablab/savers.py:23-28 | in `[C, C]` the class takes memo id 1 when first seen and its second occurrence becomes a reference to it |
| GraphScenarios.TypeTwiceFails | src/fablab/loaders.py:170-175 | loading that tree fails, since no node introduces id 1 |
| GraphScenarios.TypeTwiceRoundTripFails | src/fablab/savers.py:189-205 | `[C, C]` does not survive a round trip even with `C` resolvable |
| GraphScenarios.LoadRebound | src/fablab/loaders.py:127-145 | a list node holding an empty dict node and an empty list node with the same memo id loads as `[{}, []]`: the empty fills never check the rebound entry's kind |
| SaveTotality.SaveOk | src/fablab/savers.py:245-256 | `save` succeeds on every value of a closed heap whose objects all have a field mapping, however they share and cycle |
| SaveTotality.EntriesSave | src/fablab/savers.py:169-171 | the key/value loop succeeds and leaves each key as a bare scalar in every second slot from where it started |
| SaveTotality.KeyedPairs | src/fablab/savers.py:173-183 | an accumulator twice as long as the entries, with their keys bare in its even slots, always pairs up |
| LoadTotality.LoadSucceeds | src/fablab/loaders.py:45-54 | `load` succeeds into any heap on every tree that introduces each id once, has no `reference` node and names only classes that import |
| LoadTotality.RootLoads | src/fablab/loaders.py:56-68 | the root loads into a fresh builder, leaving the tree loaded and at most its own fill queued |
| LoadTotality.DrainRuns | src/fablab/loaders.py:48-52 | draining the root's queue runs its one fill, if it has one |
| TreeRoundTrip.SaveLoadSucceeds | src/fablab/loaders.py:251-253 | when the value reaches no object and no class twice, its objects all have a field mapping and its classes import, `save` then `load` both succeed and give a fresh copy |
| TreeRoundTrip.AnyTree | src/fablab/savers.py:17-34 | saving such a value, none of it memoized yet, emits nodes with no `reference` and memoizes only literals and identities the value reaches |
| TreeRoundTrip.ItemsTree | src/fablab/savers.py:144-148 | the same for the items of a list or tuple, whose walks meet disjoint sets |
| TreeRoundTrip.SelfListUnreached | src/fablab/savers.py:23-25 | a list holding itself reaches itself twice, so it is outside that hypothesis |
| TreeRoundTrip.ClassTwiceUnreached | src/fablab/savers.py:23-28 | a list holding one class twice is outside it too |

## Left out

- `src/fablab/core.py`: the JSON text wrappers around `save`/`load` (and its stray class) are outside the engines; JSON stringification of non-string dict keys goes with them.
- `src/fablab/utils.py`: equality through `pickle` is a foreign library.
- `src/fablab/__init__.py`: re-exports only.
- `src/fablab/common.py`: string constants only, folded into the `Node` datatype.
- Python `id()` and garbage collection: identity is a heap index and nothing is collected. Literal identity is the literal's value, and class identity is the qualified name.
- `importlib.import_module`, `getattr` and `__new__`: a `Registry` set of resolvable classes stands for them. An unresolvable class is a `TypeResolution` failure, as the source can fail there. A registry holding every class stands for an environment where every class imports.
- `__dict__` reflection: instance fields are an ordered sequence of literal-keyed pairs.
- Non-literal dict keys: dict keys are literals. The loader's unhashable-key failure is modelled but cannot be reached from a saved tree.
- `None`, `bool` and other objects without a field mapping: they are `Opaque` and fail with `UnsupportedValue`. The source fails there with an attribute error.
- Floating point: floats are exact `real`s, and there is no precision or NaN behaviour.
- Builder.FiniTupleJob: always allocates a new tuple, while CPython's `tuple(self.stack)` (src/fablab/loaders.py:92) returns the one shared `()` when the accumulator is empty. So `RoundTrip.SaveLoadRoundTrip`, `RoundTrip.LoadedIsNotOriginal` and `TreeRoundTrip.SaveLoadSucceeds` promise a fresh copy of an empty tuple only in the model; in the program `load(save(()))` is the original `()`.
- Exact types only: `save_any` dispatches on the exact `type(obj)` (src/fablab/savers.py:23, 30-33). `Lit`, `ListObj`, `TupleObj` and `DictObj` stand only for exact `int`/`float`/`str`, `list`, `tuple` and `dict`, and `Class` only for classes whose metaclass is `type`. An instance of a subclass of any of these, or a class with another metaclass (an `abc.ABC` subclass, an `Enum` class), takes the `class_instance` path in the source and is encoded here as an `InstanceObj` holding its `__dict__`, or as `Opaque` when it has none; a `list` subclass thus loses its items.
- `test_save_load_class` (tests/integration/test_save_load.py:92-97) has no dedicated scenario. The general round-trip theorem covers instances.
- `test_save_load_float` (tests/integration/test_save_load.py:14-21) needs no scenario: `Serializer.Save` and `Builder.Load` state that a scalar is returned unchanged.
- RoundTrip.SaveLoadRoundTrip: partial correctness only. When both sides succeed the copy is faithful, but success itself is not promised, because three graph shapes make `load` fail; `GraphScenarios` exhibits them. `TreeRoundTrip.SaveLoadSucceeds` promises success on values that reach nothing twice; shared or cyclic values that happen to load are covered by the partial theorem alone.
- TreeRoundTrip.Reach: the walk carries a depth bound `d`. A value that reaches nothing twice is never nested deeper than the heap has objects, so some `d` covers it, but that bound is not proved here.
- Plain values that are not `*fab` nodes: `load_any` pushes any value without the `*fab` mark unchanged (src/fablab/loaders.py:7-11, 56-59), including plain lists and dicts. The `Node` type holds only scalars and `*fab` nodes, which is all `save` emits.
- Numeric key equality: Python treats `1` and `1.0` as the same dict key, so a dict holding both keeps one entry; here `Int(1)` and `Float(1.0)` are distinct literals and distinct keys.
- Python's recursion limit: `save_any` and `load_any` recurse once per nesting level and fail on very deep graphs; the model has no depth limit.
- Instance methods: an instance here is a class name and its fields, so `obj[key] = value` on an instance (which a class defining `__setitem__` would accept) is a `KindMismatch`, as is `extend` on anything but a list.
- BuilderTheorem.LoadDecodes: assumes each memo id is introduced once in the tree. Every tree `save` emits has this property, by `SaverProofs.SaveDecodes`.
