/** TreeObject: the tree as its users see it, a map from dictionaries to blobs. */
module TreeObject {
  import opened Pmem
  import opened PersistentPtr
  import opened TreeSpec
  import opened TreeFacts
  import opened TreeHeap
  import TreeNode
  import opened TreeSchema
  import opened TreeMap
  import opened TreeRoot

  /** A tree that insertions over this schema can have built. */
  ghost predicate Built(held: Option<Tree>, keys: seq<Name>) {
    held.Some? ==> held.value.Node? && WellFormed(held.value) && ByKeys(held.value, keys)
  }

  /** The stored entries, each with the id of its leaf, in tree order. */
  ghost function StoredIn(held: Option<Tree>): seq<Entry> {
    match held
    case None => []
    case Some(t) => Entries(t)
  }

  ghost function MapOf(held: Option<Tree>): map<Dict, Blob> { Table(StoredIn(held)) }

  /** One new entry has been put in; every old one is where it was among the others, on its leaf. */
  ghost predicate Added(es: seq<Entry>, es': seq<Entry>, keys: seq<Name>, d: Dict, blob: Blob) {
    && (forall k | k in keys :: k in d)
    && exists e: Entry :: e.path == PathOf(keys, d) && e.blob == blob && Spliced(es, es', [e])
  }

  /** The pool holds the map m under `root`. */
  ghost predicate Holds(h: Heap, root: Oid, keys: seq<Name>, m: map<Dict, Blob>) {
    exists held :: RootRepr(h, root, held) && Built(held, keys) && MapOf(held) == m
  }

  /** A power cut in h finds the map before the call, m, or the map after it, m'; or an empty
      pool, if the root pointer was not yet durable when the call began. */
  ghost predicate MapStep(h0: Heap, h: Heap, root: Oid, keys: seq<Name>, m: map<Dict, Blob>, m': map<Dict, Blob>)
    requires root in h0 && h0[root].RootBlock?
  {
    forall image | CrashImage(h, image) ::
      || Holds(image, root, keys, m)
      || Holds(image, root, keys, m')
      || (RootMayBeNull(h0, root) && Holds(image, root, keys, map[]))
  }

  /** The bytes that a leaf found by a query gives access to. */
  function BytesOf(h: Heap, leaf: Oid): Blob
    requires Valid(h, leaf, NODE_TYPE)
    requires Valid(h, Get(h, leaf, NODE_TYPE).data, BUFFER_TYPE)
  {
    Get(h, Get(h, leaf, NODE_TYPE).data, BUFFER_TYPE).bytes
  }

  /** The id is that of a live leaf node, and its buffer has these bytes. */
  ghost predicate Gives(h: Heap, leaf: Oid, blob: Blob) {
    Valid(h, leaf, NODE_TYPE) && Valid(h, h[leaf].data, BUFFER_TYPE) && BytesOf(h, leaf) == blob
  }

  /** The leaf of an entry gives the entry's bytes. */
  lemma {:induction false} EntryData(h: Heap, t: Tree, e: Entry)
    requires Repr(h, t) && e in Entries(t)
    ensures Gives(h, e.id, e.blob)
    decreases t
  {
    if t.Node? {
      var j, f := EntryComesFromKid(t.key, t.kids, e);
      EntryData(h, t.kids[j], f);
    }
  }

  // ----- durability -----

  /** Whenever the power fails in h, the map m is found. */
  ghost predicate KeepsMap(h: Heap, root: Oid, keys: seq<Name>, m: map<Dict, Blob>) {
    forall image | CrashImage(h, image) :: Holds(image, root, keys, m)
  }

  lemma {:induction false} NoTreeNoMap(image: Heap, root: Oid, keys: seq<Name>, m: map<Dict, Blob>)
    requires RootRepr(image, root, None) && m != map[]
    ensures !Holds(image, root, keys, m)
  {
  }

  /** The map is durable exactly when the tree is. */
  lemma {:induction false} KeepsMapIff(h: Heap, root: Oid, keys: seq<Name>, held: Option<Tree>)
    requires held.Some? && RootRepr(h, root, held) && Built(held, keys)
    ensures KeepsMap(h, root, keys, MapOf(held)) <==> AlwaysFound(h, root, held)
  {
    hide Repr, Foot;
    TreeSurvivesIff(h, root, held.value);
    if Settled(h[root].ptr) {
      forall image | CrashImage(h, image) ensures Holds(image, root, keys, MapOf(held)) {
        assert RootRepr(image, root, held);
      }
    } else {
      var image := TreeCanBeLost(h, root, held.value);
      TreeIsNotEmptyMap(held, keys);
      NoTreeNoMap(image, root, keys, MapOf(held));
    }
  }

  lemma {:induction false} TreeIsNotEmptyMap(held: Option<Tree>, keys: seq<Name>)
    requires Built(held, keys) && held.Some?
    ensures MapOf(held) != map[]
  {
    var es := Entries(held.value);
    HasEntry(held.value);
    TableKeys(es, DictOf(es[0].path));
  }

  // ----- one insertion on the map -----

  lemma {:induction false} AnswerOnMap(keys: seq<Name>, d: Dict, blob: Blob, st: Outcome,
                                       held: Option<Tree>, held': Option<Tree>, ids: seq<Oid>)
    requires Distinct(keys) && d.Keys == KeySet(keys) && Built(held, keys)
    requires RootAnswers(st, held, held', PathOf(keys, d), blob, ids)
    ensures Built(held', keys)
    ensures st == AssertionFailed <==> keys == []
    ensures st == LeafExists <==> d in MapOf(held)
    ensures st == Done ==> d !in MapOf(held) && MapOf(held') == MapOf(held)[d := blob]
    ensures st == Done ==> Added(StoredIn(held), StoredIn(held'), keys, d, blob)
    ensures st != Done ==> held' == held
    ensures st in {Done, AssertionFailed, LeafExists, AllocationFailed}
  {
    hide Spliced;
    if keys == [] {
      assert held.None?;
    } else if held.None? {
      if st == Done {
        ChainIsSingletonMap(PathOf(keys, d)[0].key, keys, d, blob, ids);
        FirstIsAdded(keys, d, blob, ids);
      }
    } else {
      RefusedIffPresent(held.value, keys, d, blob, ids[1..]);
      if st == Done {
        InsertIsMapUpdate(held.value, keys, d, blob, ids[1..]);
        InsertAddsOneEntry(held.value, PathOf(keys, d), blob, ids[1..]);
      }
    }
  }

  lemma {:induction false} FirstIsAdded(keys: seq<Name>, d: Dict, blob: Blob, ids: seq<Oid>)
    requires keys != [] && d.Keys == KeySet(keys) && |ids| == |keys| + 1
    ensures Added([], Entries(Chain(PathOf(keys, d)[0].key, PathOf(keys, d), blob, ids)), keys, d, blob)
  {
    var p, none := PathOf(keys, d), [];
    ChainHasOneEntry(p[0].key, p, blob, ids);
    assert Spliced(none, [Entry(p, ids[|p|], blob)], [Entry(p, ids[|p|], blob)]) by {
      assert none[..0] + [Entry(p, ids[|p|], blob)] + none[0..] == [Entry(p, ids[|p|], blob)];
    }
  }

  class TreeObject {
    const pool: Pool
    const root: Oid
    const schema: Schema
    ghost var held: Option<Tree>

    ghost predicate Valid()
      reads this, pool, schema
    {
      RootRepr(pool.heap, root, held) && Distinct(schema.keys) && Built(held, schema.keys)
    }

    ghost function Contents(): map<Dict, Blob>
      reads this
    {
      MapOf(held)
    }

    constructor (pool: Pool, root: Oid, schema: Schema, ghost held: Option<Tree>)
      requires RootRepr(pool.heap, root, held) && Distinct(schema.keys) && Built(held, schema.keys)
      ensures this.pool == pool && this.root == root && this.schema == schema && this.held == held
      ensures Valid()
    {
      this.pool, this.root, this.schema, this.held := pool, root, schema, held;
    }

    /** `addNode`. The outcome says exactly whether the dictionary was new; a power cut at any
        step finds the map before the call or the map after it. */
    method AddNode(key: Dict, blob: Blob) returns (st: Outcome)
      requires Valid()
      modifies this, pool
      ensures Valid() && old(pool.trace) <= pool.trace
      ensures Executed(old(pool.heap), old(pool.trace), pool.heap, pool.trace)
      ensures pool.refusals == if st == AllocationFailed then old(pool.refusals) + 1 else old(pool.refusals)
      ensures st == UserError <==> key.Keys != KeySet(schema.keys)
      ensures st == AssertionFailed <==> schema.keys == [] && key == map[]
      ensures st == LeafExists <==> key in old(Contents())
      ensures st == Done ==> key !in old(Contents()) && Contents() == old(Contents())[key := blob]
      ensures st == Done ==> Added(old(StoredIn(held)), StoredIn(held), schema.keys, key, blob)
      ensures st != Done ==> held == old(held)
      ensures old(held).Some? ==> held.Some? && pool.heap[root] == old(pool.heap)[root]
      ensures old(held).None? ==>
                pool.heap[root].ptr == if st == Done then Stored(old(pool.heap)[root].ptr, held.value.id)
                                       else old(pool.heap)[root].ptr
      ensures st in {UserError, AssertionFailed} ==> pool.heap == old(pool.heap) && pool.trace == old(pool.trace)
      ensures Conserved(st, old(pool.heap), pool.heap, root, old(held), held)
      ensures st == Done ==> (KeepsMap(pool.heap, root, schema.keys, Contents())
                              <==> old(held).Some? && Settled(old(pool.heap)[root].ptr))
      ensures st in {Done, UserError, AssertionFailed, LeafExists, AllocationFailed}
      ensures forall k | |old(pool.trace)| <= k < |pool.trace| ::
                && RootStep(old(pool.heap), pool.trace[k], root, old(held), held)
                && MapStep(old(pool.heap), pool.trace[k], root, schema.keys, old(Contents()), Contents())
      ensures st !in {Done, AllocationFailed} ==> SameLive(old(pool.heap), old(pool.trace), pool.trace)
    {
      hide RootStep, MapStep, Conserved, AlwaysFound, KeepsMap, MapOf, StoredIn, Added, Built, Repr, Foot;
      hide RootAnswers, Distinct, Executed;
      var path;
      st, path := schema.ProcessInsertKey(key);
      DistinctAccepts(schema.keys, key);
      if st != Done {
        AbsentUnlessOwnKeys(held, schema.keys, key);
        NothingConserved(st, pool.heap, root, held);
        NothingExecuted(pool.heap, pool.trace);
        return;
      }
      ghost var ids, held';
      st, held', ids := TreeRoot.AddNode(pool, root, path, blob, held);
      AnswerOnMap(schema.keys, key, blob, st, held, held', ids);
      forall k | |old(pool.trace)| <= k < |pool.trace|
        ensures MapStep(old(pool.heap), pool.trace[k], root, schema.keys, MapOf(held), MapOf(held'))
      {
        StepOnMap(old(pool.heap), pool.trace[k], root, schema.keys, held, held');
      }
      if st == Done {
        KeepsMapIff(pool.heap, root, schema.keys, held');
      }
      held := held';
    }

    /** `lookup`: the leaves of the entries that agree with the request, in tree order. */
    method Lookup(request: Dict) returns (result: seq<Oid>)
      requires Valid()
      modifies pool`heap, pool`trace
      ensures Valid() && held == old(held)
      ensures OnlyRead(old(pool.heap), old(pool.trace), pool.heap, pool.trace, root, schema.keys, held)
      ensures Once(result)
      ensures result == Matching(StoredIn(held), request)
      ensures request.Keys == KeySet(schema.keys) && request !in Contents() ==> result == []
      ensures request.Keys == KeySet(schema.keys) && request in Contents() ==>
                |result| == 1 && Gives(pool.heap, result[0], Contents()[request])
    {
      hide OnlyRead, Turned, Foot;
      ghost var h0, tr0 := pool.heap, pool.trace;
      var node := pool.heap[root].ptr.now;
      if node == NULL {
        NothingWasRead(h0, tr0, root, schema.keys, held);
        return [];
      }
      var st;
      st, result := TreeNode.Lookup(pool, node, request, held.value);
      TreeWasRead(h0, tr0, pool.heap, pool.trace, root, schema.keys, held.value);
      LookupIsFilter(held.value, request);
      if request.Keys == KeySet(schema.keys) {
        FullLookup(held.value, schema.keys, request);
        if request in Contents() {
          var e :| e in Entries(held.value) && DictOf(e.path) == request
                   && e.blob == Contents()[request] && result == [e.id];
          EntryData(pool.heap, held.value, e);
        }
      }
    }
  }

  lemma {:induction false} AbsentUnlessOwnKeys(held: Option<Tree>, keys: seq<Name>, d: Dict)
    requires Distinct(keys) && Built(held, keys) && d.Keys != KeySet(keys)
    ensures d !in MapOf(held)
  {
    if held.Some? {
      EntriesHaveKeys(held.value, keys);
      TableKeys(Entries(held.value), d);
      forall e | e in Entries(held.value) ensures DictOf(e.path) != d {
        DictOfPath(keys, e.path);
      }
    }
  }

  lemma {:induction false} HeldIsHolds(image: Heap, root: Oid, keys: seq<Name>, held: Option<Tree>)
    requires RootRepr(image, root, held) && Built(held, keys)
    ensures Holds(image, root, keys, MapOf(held))
  {
  }

  lemma {:induction false} StepOnMap(h0: Heap, h: Heap, root: Oid, keys: seq<Name>, held: Option<Tree>,
        held': Option<Tree>)
    requires root in h0 && h0[root].RootBlock? && Built(held, keys) && Built(held', keys)
    requires RootStep(h0, h, root, held, held')
    ensures MapStep(h0, h, root, keys, MapOf(held), MapOf(held'))
  {
    forall image | CrashImage(h, image)
      ensures || Holds(image, root, keys, MapOf(held))
              || Holds(image, root, keys, MapOf(held'))
              || (RootMayBeNull(h0, root) && Holds(image, root, keys, map[]))
    {
      if RootRepr(image, root, held) {
        HeldIsHolds(image, root, keys, held);
      } else if RootRepr(image, root, held') {
        HeldIsHolds(image, root, keys, held');
      } else {
        HeldIsHolds(image, root, keys, None);
      }
    }
  }

  /** A call has done nothing but repair counters: it has allocated and freed nothing, touched
      nothing outside the tree, and a power cut at any of its steps finds the map. */
  ghost predicate OnlyRead(h0: Heap, tr0: seq<Heap>, h: Heap, tr: seq<Heap>, root: Oid, keys: seq<Name>,
                           held: Option<Tree>)
  {
    && RootRepr(h0, root, held) && RootRepr(h, root, held)
    && h.Keys == h0.Keys && SameLive(h0, tr0, tr) && h[root] == h0[root]
    && Frame(h0, h, Used(h0, held)) && Used(h, held) == Used(h0, held)
    && tr0 <= tr && Executed(h0, tr0, h, tr)
    && forall k | |tr0| <= k < |tr| ::
         RootStep(h0, tr[k], root, held, held) && MapStep(h0, tr[k], root, keys, MapOf(held), MapOf(held))
  }

  lemma {:induction false} NothingWasRead(h: Heap, tr: seq<Heap>, root: Oid, keys: seq<Name>, held: Option<Tree>)
    requires RootRepr(h, root, held)
    ensures OnlyRead(h, tr, h, tr, root, keys, held)
  {
    NothingExecuted(h, tr);
  }

  lemma {:induction false} TreeWasRead(h0: Heap, tr0: seq<Heap>, h: Heap, tr: seq<Heap>, root: Oid,
        keys: seq<Name>, t: Tree)
    requires RootRepr(h0, root, Some(t)) && ReadTree(h0, tr0, h, tr, t) && Built(Some(t), keys)
    ensures OnlyRead(h0, tr0, h, tr, root, keys, Some(t)) && RootRepr(h, root, Some(t)) && Repr(h, t)
  {
    hide CrashImage, Repr, Foot, Recovers, RootStep, MapStep, Executed;
    TurnedUnderRoot(h0, tr0, h, tr, root, t, t);
    forall k | |tr0| <= k < |tr|
      ensures MapStep(h0, tr[k], root, keys, MapOf(Some(t)), MapOf(Some(t)))
    {
      StepOnMap(h0, tr[k], root, keys, Some(t), Some(t));
    }
  }
}
