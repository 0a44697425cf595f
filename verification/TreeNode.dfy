/** TreeNode: building branches, inserting, querying. */
module TreeNode {
  import opened Pmem
  import opened PersistentPtr
  import opened VectorSpec
  import PersistentVector
  import opened TreeSpec
  import opened TreeHeap
  import TreeBlocks

  // ----- building a branch off to the side -----

  /** Recorded steps by which no block that was there before is touched, in any state passed through. */
  ghost predicate BesideOnly(h0: Heap, tr0: seq<Heap>, h: Heap, tr: seq<Heap>) {
    && tr0 <= tr && Executed(h0, tr0, h, tr) && Frame(h0, h, {})
    && forall k | |tr0| <= k < |tr| :: Frame(h0, tr[k], {})
  }

  /** The tree t stands in h, on new blocks only, and they are all that is new. */
  ghost predicate BuiltBeside(h0: Heap, h: Heap, t: Tree) {
    Repr(h, t) && Foot(h, t) !! h0.Keys && h.Keys == h0.Keys + Foot(h, t)
  }

  method AllocateLeaf(pool: Pool, value: Name, blob: Blob) returns (st: Outcome, pNode: Oid)
    modifies pool
    ensures st in {Done, AllocationFailed}
    ensures BesideOnly(old(pool.heap), old(pool.trace), pool.heap, pool.trace)
    ensures st == Done ==> BuiltBeside(old(pool.heap), pool.heap, Leaf(pNode, value, blob))
    ensures pool.refusals == old(pool.refusals) + Refusal(st)
  {
    hide Executed;
    var pBlob;
    pNode := NULL;
    ghost var h0, tr0 := pool.heap, pool.trace;
    st, pBlob := AllocateOnStack(pool, BufferBlock(blob));
    if st == Done {
      ghost var h1, tr1 := pool.heap, pool.trace;
      st, pNode := AllocateOnStack(pool, NodeBlock("", value, pBlob, Durable(NULL)));
      ExecutedThen(h0, tr0, h1, tr1, pool.heap, pool.trace);
    }
  }

  /** The tree t stands in h over the child that stood alone in h0; its own blocks are new. */
  ghost predicate BuiltOver(h0: Heap, h: Heap, t: Tree)
    requires t.Node? && |t.kids| == 1
  {
    && Repr(h, t) && Foot(h0, t.kids[0]) <= h0.Keys
    && h.Keys == h0.Keys + Foot(h, t) && Foot(h, t) * h0.Keys == Foot(h0, t.kids[0])
  }

  /** The node over a branch: allocated empty, then given its one child. */
  method AllocateOver(pool: Pool, key: Name, value: Name, pNode: Oid, ghost kid: Tree)
    returns (st: Outcome, pNewNode: Oid)
    requires Repr(pool.heap, kid) && kid.id == pNode && Foot(pool.heap, kid) <= pool.heap.Keys
    modifies pool
    ensures st in {Done, AllocationFailed}
    ensures BesideOnly(old(pool.heap), old(pool.trace), pool.heap, pool.trace)
    ensures st == Done ==> BuiltOver(old(pool.heap), pool.heap, Node(pNewNode, key, value, [kid]))
    ensures pool.refusals == old(pool.refusals) + Refusal(st)
  {
    hide Executed, VecStep, Foot, BuiltOver;
    ghost var h0, tr0 := pool.heap, pool.trace;
    st, pNewNode := AllocateOnStack(pool, NodeBlock(key, value, NULL, Durable(NULL)));
    if st == Done {
      ghost var h1, tr1 := pool.heap, pool.trace;
      var pushed, _ := PersistentVector.PushBackElem(pool, pNewNode, pNode, []);
      st := pushed;
      PushIntoNewNode(h0, tr0, h1, tr1, pool.heap, pool.trace, pNewNode, PersistentVector.InFlight(st, pNode));
      if st == Done {
        KidUnderNewNode(h0, h1, pool.heap, Node(pNewNode, key, value, [kid]));
      }
    }
  }

  lemma {:induction false} PushIntoNewNode(h0: Heap, tr0: seq<Heap>, h1: Heap, tr1: seq<Heap>, h: Heap,
        tr: seq<Heap>, owner: Oid, xs: set<Oid>)
    requires owner !in h0 && owner in h1 && h1[owner].NodeBlock? && h1[owner].ptr.now == NULL
    requires Frame(h0, h1, {}) && tr1 == tr0 + [h1] && tr1 <= tr
    requires VecStep(h1, h, owner, [], xs)
    requires forall k | |tr1| <= k < |tr| :: VecStep(h1, tr[k], owner, [], xs)
    requires Executed(h0, tr0, h1, tr1) && Executed(h1, tr1, h, tr)
    ensures BesideOnly(h0, tr0, h, tr)
  {
    hide Executed;
    ExecutedThen(h0, tr0, h1, tr1, h, tr);
    forall k | |tr0| <= k < |tr| ensures Frame(h0, tr[k], {}) {
      if k < |tr1| {
        assert tr[k] == h1;
      } else {
        NewNodeFrame(h0, h1, tr[k], owner, xs);
      }
    }
    NewNodeFrame(h0, h1, h, owner, xs);
  }

  lemma {:induction false} NewNodeFrame(h0: Heap, h1: Heap, h: Heap, owner: Oid, xs: set<Oid>)
    requires owner !in h0 && owner in h1 && h1[owner].NodeBlock? && h1[owner].ptr.now == NULL
    requires Frame(h0, h1, {}) && VecStep(h1, h, owner, [], xs)
    ensures Frame(h0, h, {})
  {
  }

  lemma {:induction false} KidUnderNewNode(h0: Heap, h1: Heap, h: Heap, t: Tree)
    requires t.Node? && |t.kids| == 1 && t.id != NULL && t.id !in h0
    requires h1 == h0[t.id := NodeBlock(t.key, t.value, NULL, Durable(NULL))]
    requires Repr(h0, t.kids[0]) && Foot(h0, t.kids[0]) <= h0.Keys
    requires VecStep(h1, h, t.id, [], {t.kids[0].id}) && VecRepr(h, t.id, [t.kids[0].id])
    requires h.Keys == h1.Keys + {h[t.id].ptr.now}
    ensures BuiltOver(h0, h, t)
  {
    var v := h[t.id].ptr.now;
    assert v !in h0 && v != NULL && h[t.id] == NodeBlock(t.key, t.value, NULL, Durable(v));
    ReprFrame(h0, h, t.kids[0]);
    NodeOverKid(h0, h, t, v);
  }

  lemma {:induction false} NodeOverKid(h0: Heap, h: Heap, t: Tree, v: Oid)
    requires t.Node? && |t.kids| == 1 && t.id != NULL && t.id !in h0 && v !in h0 && v != NULL
    requires t.id in h && h[t.id] == NodeBlock(t.key, t.value, NULL, Durable(v)) && VecRepr(h, t.id, [t.kids[0].id])
    requires Repr(h, t.kids[0]) && Foot(h, t.kids[0]) == Foot(h0, t.kids[0]) <= h0.Keys
    requires h.Keys == h0.Keys + {t.id, v}
    ensures BuiltOver(h0, h, t)
  {
    assert IdsOf(t.kids) == [t.kids[0].id];
    assert Own(h, t.id) == {t.id, v};
    MakeNode(h, t);
    OneKidFoot(h, t);
  }

  lemma {:induction false} OneKidFoot(h: Heap, t: Tree)
    requires t.Node? && |t.kids| == 1
    ensures Foot(h, t) == Own(h, t.id) + Foot(h, t.kids[0])
  {
    KidFoot(h, t, 0);
  }

  lemma {:induction false} NestOnce(h0: Heap, h1: Heap, h: Heap, t: Tree)
    requires t.Node? && |t.kids| == 1 && BuiltBeside(h0, h1, t.kids[0]) && BuiltOver(h1, h, t)
    ensures BuiltBeside(h0, h, t)
  {
    KidFoot(h, t, 0);
  }

  lemma {:induction false} BesideTransitive(h0: Heap, tr0: seq<Heap>, h1: Heap, tr1: seq<Heap>, h: Heap, tr: seq<Heap>)
    requires BesideOnly(h0, tr0, h1, tr1) && BesideOnly(h1, tr1, h, tr)
    ensures BesideOnly(h0, tr0, h, tr)
  {
    hide Executed;
    ExecutedThen(h0, tr0, h1, tr1, h, tr);
    forall k | |tr0| <= k < |tr| ensures Frame(h0, tr[k], {}) {
      if k < |tr1| {
        assert tr[k] == tr1[k];
      }
    }
  }

  lemma {:induction false} StandsBeside(h0: Heap, h: Heap, t: Tree)
    requires BuiltBeside(h0, h, t)
    ensures Repr(h, t) && Foot(h, t) <= h.Keys
  {
  }

  /** The chain from key i on, known by the value of the pair before it. */
  ghost function ChainFrom(value: Name, keyChain: Path, blob: Blob, i: nat, made: seq<Oid>): Tree
    requires i <= |keyChain| && |made| == |keyChain| - i + 1
  {
    Chain(ValueAt(value, keyChain, i), keyChain[i..], blob, made)
  }

  lemma {:induction false} ChainFromLast(value: Name, keyChain: Path, blob: Blob, id: Oid)
    ensures ChainFrom(value, keyChain, blob, |keyChain|, [id]) == Leaf(id, ValueAt(value, keyChain, |keyChain|), blob)
  {
  }

  lemma {:induction false} ChainFromOneUp(value: Name, keyChain: Path, blob: Blob, i: nat, made: seq<Oid>, id: Oid)
    requires i < |keyChain| && |made| == |keyChain| - i
    ensures ChainFrom(value, keyChain, blob, i, [id] + made)
            == Node(id, keyChain[i].key, ValueAt(value, keyChain, i), [ChainFrom(value, keyChain, blob, i + 1, made)])
    ensures ChainFrom(value, keyChain, blob, i + 1, made).id == made[0]
  {
    assert keyChain[i..][1..] == keyChain[i + 1..];
    assert ([id] + made)[1..] == made;
  }

  /** The downward loop: keys and values are shifted by one place, since a node carries the
      value its parent knows it by. */
  method AllocateNested(pool: Pool, value: Name, keyChain: Path, blob: Blob)
    returns (st: Outcome, pNode: Oid, ghost ids: seq<Oid>)
    modifies pool
    ensures st in {Done, AllocationFailed} && |ids| == |keyChain| + 1
    ensures BesideOnly(old(pool.heap), old(pool.trace), pool.heap, pool.trace)
    ensures st == Done ==> BuiltBeside(old(pool.heap), pool.heap, Chain(value, keyChain, blob, ids)) && pNode == ids[0]
    ensures pool.refusals == old(pool.refusals) + Refusal(st)
  {
    hide BesideOnly, Repr, Foot, BuiltBeside, BuiltOver, ChainFrom;
    ghost var h0, tr0 := pool.heap, pool.trace;
    var leafValue := if |keyChain| == 0 then value else keyChain[|keyChain| - 1].value;
    st, pNode := AllocateLeaf(pool, leafValue, blob);
    ids := seq(|keyChain| + 1, _ => NULL);
    if st != Done {
      return;
    }
    ghost var made := [pNode];
    ChainFromLast(value, keyChain, blob, pNode);
    var i: int := |keyChain| - 1;
    while i >= 0
      invariant pool.refusals == old(pool.refusals)
      invariant st == Done && -1 <= i < |keyChain| && |made| == |keyChain| - i && pNode == made[0]
      invariant BesideOnly(h0, tr0, pool.heap, pool.trace)
      invariant BuiltBeside(h0, pool.heap, ChainFrom(value, keyChain, blob, i + 1, made))
    {
      var k := keyChain[i].key;
      var v := if i > 0 then keyChain[i - 1].value else value;
      var pNewNode;
      ghost var kid := ChainFrom(value, keyChain, blob, i + 1, made);
      ghost var h1, tr1 := pool.heap, pool.trace;
      StandsBeside(h0, h1, kid);
      ChainFromOneUp(value, keyChain, blob, i, made, NULL);
      st, pNewNode := AllocateOver(pool, k, v, pNode, kid);
      BesideTransitive(h0, tr0, h1, tr1, pool.heap, pool.trace);
      if st != Done {
        return;
      }
      NestOnce(h0, h1, pool.heap, Node(pNewNode, k, v, [kid]));
      ChainFromOneUp(value, keyChain, blob, i, made, pNewNode);
      pNode := pNewNode;
      made := [pNewNode] + made;
      i := i - 1;
    }
    ids := made;
    WholeChain(value, keyChain, blob, made);
  }

  lemma {:induction false} WholeChain(value: Name, keyChain: Path, blob: Blob, made: seq<Oid>)
    requires |made| == |keyChain| + 1
    ensures ChainFrom(value, keyChain, blob, 0, made) == Chain(value, keyChain, blob, made)
  {
    assert keyChain[0..] == keyChain;
  }

  /** The value by which the node at depth i of a chain is known. */
  function ValueAt(value: Name, keyChain: Path, i: nat): Name
    requires i <= |keyChain|
  {
    if i == 0 then value else keyChain[i - 1].value
  }

  // ----- reading a node -----

  /** `leaf()`. */
  function IsLeaf(h: Heap, item: Oid): bool
    requires Valid(h, item, NODE_TYPE)
  {
    Get(h, item, NODE_TYPE).data != NULL
  }

  /** A repaired counter leaves the tree standing on its blocks. */
  lemma {:induction false} RepairedTree(h0: Heap, h: Heap, t: Tree)
    requires Repr(h0, t) && t.Node? && t.id in h && HasPtr(h[t.id])
    requires VecRepr(h, t.id, IdsOf(t.kids)) && h[t.id] == h0[t.id]
    requires Frame(h0, h, {t.id} + Named(h0[t.id].ptr.now)) && h.Keys == h0.Keys
    ensures Repr(h, t) && Foot(h, t) == Foot(h0, t)
  {
    KidsAreForest(h0, t);
    OwnVector(h0, t);
    forall j | 0 <= j < |t.kids| ensures Stays(h0, h, Foot(h0, t.kids[j])) {}
    ForestStays(h0, h, t.kids);
    assert Own(h, t.id) == Own(h0, t.id);
    assert Foot(h, t) == Foot(h0, t);
    MakeNode(h, t);
  }

  lemma {:induction false} StepFrames(h0: Heap, h: Heap, owner: Oid, kids: seq<Oid>)
    requires owner in h0 && HasPtr(h0[owner]) && VecStep(h0, h, owner, kids, {})
    ensures Frame(h0, h, {owner} + Named(h0[owner].ptr.now))
  {
  }

  /** `items_.size()` repairs the node's counter at most; the tree stays as it is. */
  lemma {:induction false} SizeKeepsTree(h0: Heap, tr0: seq<Heap>, h: Heap, tr: seq<Heap>, t: Tree)
    requires Repr(h0, t) && t.Node? && PersistentVector.ReadOnly(h0, tr0, h, tr, t.id, IdsOf(t.kids))
    ensures Turned(h0, tr0, h, tr, t, t) && h.Keys == h0.Keys && Foot(h, t) == Foot(h0, t)
    ensures Repr(h, t)
    ensures h[t.id].ptr.now != NULL ==> h[h[t.id].ptr.now].nelem.now == |t.kids|
    ensures SameLive(h0, tr0, tr)
  {
    hide Executed, DataStep, VecStep, TreeStep, Foot, VecOk, PersistentVector.ReadOnly, Frame;
    PersistentVector.ReadOnlySteps(h0, tr0, h, tr, t.id, IdsOf(t.kids));
    StepFrames(h0, h, t.id, IdsOf(t.kids));
    RepairedTree(h0, h, t);
    forall k | |tr0| <= k < |tr| ensures TreeStep(h0, tr[k], t, t) {
      VectorReadStep(h0, tr[k], t);
    }
    VectorReadStep(h0, h, t);
  }

  // ----- insertion -----

  /** How a call of addNode has ended, against the insertion on the tree as a value. A refused
      call allocates and frees nothing; a failed one may leave a branch unreachable. */
  ghost predicate Answers(st: Outcome, h0: Heap, h: Heap, t: Tree, t': Tree, key: Path, blob: Blob, ids: seq<Oid>) {
    && |ids| == |key| && t'.id == t.id
    && if st == Done then Insert(t, key, blob, ids) == Inserted(t') && Exchanged(h0, h, t, t')
       else if st == AllocationFailed then Insert(t, key, blob, ids).Inserted? && t' == t
       else Insert(t, key, blob, ids) == Refused(st) && t' == t && Exchanged(h0, h, t, t') && h.Keys == h0.Keys
  }

  method AddNode(pool: Pool, self: Oid, key: Path, blob: Blob, ghost t: Tree)
    returns (st: Outcome, ghost t': Tree, ghost ids: seq<Oid>)
    requires Repr(pool.heap, t) && t.id == self
    modifies pool
    decreases t
    ensures Turned(old(pool.heap), old(pool.trace), pool.heap, pool.trace, t, t')
    ensures Answers(st, old(pool.heap), pool.heap, t, t', key, blob, ids)
    ensures pool.refusals == old(pool.refusals) + Refusal(st)
    ensures st !in {Done, AllocationFailed} ==> SameLive(old(pool.heap), old(pool.trace), pool.trace)
  {
    hide Turned, Answers, Executed;
    ids := seq(|key|, _ => NULL);
    if |key| == 0 || Get(pool.heap, self, NODE_TYPE).key != key[0].key || Get(pool.heap, self, NODE_TYPE).data != NULL {
      GuardFails(pool.heap, pool.trace, t, key, blob, ids);
      return AssertionFailed, t, ids;
    }
    ghost var h0, tr0 := pool.heap, pool.trace;
    ghost var items, values := IdsOf(t.kids), ValuesOf(t.kids);
    var i, n := FindItem(pool, self, key[0].value, items, values);
    ghost var h1, tr1 := pool.heap, pool.trace;
    SizeKeepsTree(h0, tr0, h1, tr1, t);
    FindIs(t.kids, key[0].value, i);
    if i == n {
      st, t', ids := AddBranch(pool, self, key, blob, t);
    } else if IsLeaf(pool.heap, PersistentVector.At(pool.heap, self, i, items)) {
      st, t' := LeafExists, t;
      LeafIsThere(h1, tr1, t, key, blob, ids);
    } else {
      var item := PersistentVector.At(pool.heap, self, i, items);
      ghost var kid, below;
      st, kid, below := AddNode(pool, item, key[1..], blob, t.kids[i]);
      t', ids := t.(kids := t.kids[i := kid]), [NULL] + below;
      AddedBelow(h1, tr1, pool.heap, pool.trace, t, i, kid, key, blob, below, st);
    }
    AfterScan(h0, tr0, h1, tr1, pool.heap, pool.trace, t, t', key, blob, ids, st);
    if st !in {Done, AllocationFailed} {
      TurnedGrows(h1, tr1, pool.heap, pool.trace, t, t');
      SameLiveThen(h0, tr0, h1, tr1, pool.trace);
    }
  }

  lemma {:induction false} TurnedGrows(h0: Heap, tr0: seq<Heap>, h: Heap, tr: seq<Heap>, t: Tree, t': Tree)
    requires Turned(h0, tr0, h, tr, t, t')
    ensures tr0 <= tr
  {
  }

  lemma {:induction false} AfterScan(h0: Heap, tr0: seq<Heap>, h1: Heap, tr1: seq<Heap>, h: Heap, tr: seq<Heap>,
        t: Tree, t': Tree,
                  key: Path, blob: Blob, ids: seq<Oid>, st: Outcome)
    requires Turned(h0, tr0, h1, tr1, t, t) && h1.Keys == h0.Keys && Foot(h1, t) == Foot(h0, t)
    requires Turned(h1, tr1, h, tr, t, t') && Answers(st, h1, h, t, t', key, blob, ids)
    ensures Turned(h0, tr0, h, tr, t, t') && Answers(st, h0, h, t, t', key, blob, ids)
  {
    TurnedAfter(h0, tr0, h1, tr1, h, tr, t, t');
  }

  lemma {:induction false} LeafIsThere(h: Heap, tr: seq<Heap>, t: Tree, key: Path, blob: Blob, ids: seq<Oid>)
    requires Repr(h, t) && t.Node? && |ids| == |key| && key != [] && key[0].key == t.key
    requires var i := Find(t.kids, key[0].value); i < |t.kids| && t.kids[i].Leaf?
    ensures Turned(h, tr, h, tr, t, t) && Answers(LeafExists, h, h, t, t, key, blob, ids)
  {
    NothingDone(h, tr, t);
  }

  lemma {:induction false} GuardFails(h: Heap, tr: seq<Heap>, t: Tree, key: Path, blob: Blob, ids: seq<Oid>)
    requires Repr(h, t) && |ids| == |key|
    requires key == [] || h[t.id].key != key[0].key || h[t.id].data != NULL
    ensures Turned(h, tr, h, tr, t, t) && Answers(AssertionFailed, h, h, t, t, key, blob, ids)
  {
    NothingDone(h, tr, t);
  }

  /** The blocks named by `items` are tree nodes with these values. */
  ghost predicate ItemsHave(h: Heap, items: seq<Oid>, values: seq<Name>) {
    && |items| == |values|
    && forall j | 0 <= j < |items| :: Valid(h, items[j], NODE_TYPE) && h[items[j]].value == values[j]
  }

  /** The loop of addNode: the index of the first child with this value, or the number of
      children. Each round asks for the size again. */
  method FindItem(pool: Pool, self: Oid, value: Name, ghost items: seq<Oid>, ghost values: seq<Name>)
    returns (i: nat, n: nat)
    requires VecRepr(pool.heap, self, items) && ItemsHave(pool.heap, items, values)
    modifies pool`heap, pool`trace
    ensures PersistentVector.ReadOnly(old(pool.heap), old(pool.trace), pool.heap, pool.trace, self, items)
    ensures n == |items| && i <= n && (i < n ==> values[i] == value)
    ensures forall j | 0 <= j < i :: values[j] != value
  {
    hide Executed, VecStep, DataStep;
    ghost var h0, tr0 := pool.heap, pool.trace;
    n := PersistentVector.Size(pool, self, items);
    ghost var h1, tr1 := pool.heap, pool.trace;
    PersistentVector.ReadOnlySteps(h0, tr0, h1, tr1, self, items);
    assert ItemsHave(h1, items, values);
    i := 0;
    while i < n
      invariant i <= n == |items| && pool.heap == h1 && pool.trace == tr1
      invariant forall j | 0 <= j < i :: values[j] != value
    {
      var item := PersistentVector.At(pool.heap, self, i, items);
      if Get(pool.heap, item, NODE_TYPE).value == value {
        return;
      }
      i := i + 1;
      n := PersistentVector.Size(pool, self, items);
    }
  }

  /** The bottom of the known tree: build the rest off to the side, publish it with one push. */
  method AddBranch(pool: Pool, self: Oid, key: Path, blob: Blob, ghost t: Tree)
    returns (st: Outcome, ghost t': Tree, ghost ids: seq<Oid>)
    requires Repr(pool.heap, t) && t.id == self && t.Node?
    requires key != [] && key[0].key == t.key && Find(t.kids, key[0].value) == |t.kids|
    modifies pool
    ensures Turned(old(pool.heap), old(pool.trace), pool.heap, pool.trace, t, t')
    ensures Answers(st, old(pool.heap), pool.heap, t, t', key, blob, ids) && st in {Done, AllocationFailed}
    ensures pool.refusals == old(pool.refusals) + Refusal(st)
  {
    ghost var h1, tr1 := pool.heap, pool.trace;
    ghost var items := IdsOf(t.kids);
    var branch;
    st, branch, ids := AllocateNested(pool, key[0].value, key[1..], blob);
    t' := t;
    ghost var h2, tr2 := pool.heap, pool.trace;
    BesideTurns(h1, tr1, h2, tr2, t);
    if st == Done {
      ghost var sub := Chain(key[0].value, key[1..], blob, ids);
      var pushed, _ := PersistentVector.PushBackElem(pool, self, branch, items);
      st := pushed;
      if st == Done {
        PushTurns(h1, tr1, h2, tr2, pool.heap, pool.trace, t, sub);
        t' := t.(kids := t.kids + [sub]);
      } else {
        SizeKeepsTree(h2, tr2, pool.heap, pool.trace, t);
        ReadTurns(h1, tr1, h2, tr2, pool.heap, pool.trace, t);
      }
    }
  }

  lemma {:induction false} AddedBelow(h0: Heap, tr0: seq<Heap>, h: Heap, tr: seq<Heap>, t: Tree, i: nat, kid: Tree,
                   key: Path, blob: Blob, below: seq<Oid>, st: Outcome)
    requires Repr(h0, t) && t.Node? && i < |t.kids| && t.kids[i].Node?
    requires key != [] && key[0].key == t.key && Find(t.kids, key[0].value) == i
    requires Turned(h0, tr0, h, tr, t.kids[i], kid) && Answers(st, h0, h, t.kids[i], kid, key[1..], blob, below)
    ensures var t' := t.(kids := t.kids[i := kid]);
            Turned(h0, tr0, h, tr, t, t') && Answers(st, h0, h, t, t', key, blob, [NULL] + below)
  {
    hide Turned, Exchanged, Repr;
    TurnedKid(h0, tr0, h, tr, t, i, kid);
    assert ([NULL] + below)[1..] == below;
    assert t.kids[i := t.kids[i]] == t.kids;
  }

  ghost function ValuesOf(kids: seq<Tree>): (values: seq<Name>)
    ensures |values| == |kids|
    ensures forall i | 0 <= i < |kids| :: values[i] == kids[i].value
  {
    seq(|kids|, i requires 0 <= i < |kids| => kids[i].value)
  }

  lemma {:induction false} FindIs(kids: seq<Tree>, value: Name, i: nat)
    requires i <= |kids| && (i < |kids| ==> kids[i].value == value)
    requires forall j | 0 <= j < i :: kids[j].value != value
    ensures Find(kids, value) == i
  {
  }

  lemma {:induction false} BesideTurns(h0: Heap, tr0: seq<Heap>, h: Heap, tr: seq<Heap>, t: Tree)
    requires Repr(h0, t) && BesideOnly(h0, tr0, h, tr)
    ensures Turned(h0, tr0, h, tr, t, t) && Foot(h, t) == Foot(h0, t)
  {
    forall k | |tr0| <= k < |tr| ensures TreeStep(h0, tr[k], t, t) {
      NothingTouched(h0, tr[k], t, t);
    }
    NothingTouched(h0, h, t, t);
    ReprIsFixed(h0, t);
    ReprFrame(h0, h, t);
  }

  /** The last part of an insertion: the branch stands in h1, and one push publishes it. */
  lemma {:induction false} PushTurns(h0: Heap, tr0: seq<Heap>, h1: Heap, tr1: seq<Heap>, h: Heap, tr: seq<Heap>,
        t: Tree, branch: Tree)
    requires Repr(h0, t) && t.Node? && BesideOnly(h0, tr0, h1, tr1) && BuiltBeside(h0, h1, branch)
    requires t.id in h1 && HasPtr(h1[t.id])
    requires tr1 <= tr && VecStep(h1, h, t.id, IdsOf(t.kids), {branch.id})
    requires forall k | |tr1| <= k < |tr| :: VecStep(h1, tr[k], t.id, IdsOf(t.kids), {branch.id})
    requires VecRepr(h, t.id, IdsOf(t.kids) + [branch.id]) && Executed(h1, tr1, h, tr)
    requires h.Keys == Swapped(h1.Keys, h1[t.id].ptr.now, h[t.id].ptr.now)
    ensures Turned(h0, tr0, h, tr, t, t.(kids := t.kids + [branch]))
    ensures Exchanged(h0, h, t, t.(kids := t.kids + [branch]))
  {
    hide Executed;
    ExecutedThen(h0, tr0, h1, tr1, h, tr);
    PushStepsTurn(h0, tr0, h1, tr1, tr, t, branch);
    VectorPushStep(h0, h1, h, t, branch);
    VectorPushed(h0, h1, h, t, branch);
    assert Foot(h0, t) <= h0.Keys && Own(h0, t.id) <= Foot(h0, t)
           && h1[t.id] == h0[t.id] && t.id !in Named(h0[t.id].ptr.now) by {
      ReprIsFixed(h0, t);
      assert t.id in Foot(h0, t);
    }
    PushExchanges(h0, h1, h, t, branch);
  }

  lemma {:induction false} PushStepsTurn(h0: Heap, tr0: seq<Heap>, h1: Heap, tr1: seq<Heap>, tr: seq<Heap>,
        t: Tree, branch: Tree)
    requires Repr(h0, t) && t.Node? && BesideOnly(h0, tr0, h1, tr1) && BuiltBeside(h0, h1, branch)
    requires t.id in h1 && HasPtr(h1[t.id]) && tr1 <= tr
    requires forall k | |tr1| <= k < |tr| :: VecStep(h1, tr[k], t.id, IdsOf(t.kids), {branch.id})
    ensures tr0 <= tr
    ensures forall k | |tr0| <= k < |tr| :: TreeStep(h0, tr[k], t, t.(kids := t.kids + [branch]))
  {
    var t' := t.(kids := t.kids + [branch]);
    forall k | |tr0| <= k < |tr| ensures TreeStep(h0, tr[k], t, t') {
      if k < |tr1| {
        assert tr[k] == tr1[k];
        NothingTouched(h0, tr[k], t, t');
      } else {
        VectorPushStep(h0, h1, tr[k], t, branch);
      }
    }
  }

  lemma {:induction false} PushExchanges(h0: Heap, h1: Heap, h: Heap, t: Tree, branch: Tree)
    requires t.Node? && t.id in h0 && t.id in h1 && t.id in h && HasPtr(h1[t.id]) && HasPtr(h[t.id])
    requires Foot(h0, t) <= h0.Keys && Own(h0, t.id) <= Foot(h0, t)
    requires BuiltBeside(h0, h1, branch) && h1[t.id] == h0[t.id]
    requires Own(h1, t.id) == {t.id} + Named(h1[t.id].ptr.now) && Own(h, t.id) == {t.id} + Named(h[t.id].ptr.now)
    requires Foot(h, t.(kids := t.kids + [branch])) == Foot(h0, t) - Own(h1, t.id) + Own(h, t.id) + Foot(h1, branch)
    requires h.Keys == Swapped(h1.Keys, h1[t.id].ptr.now, h[t.id].ptr.now)
    requires h[t.id].ptr.now != NULL && t.id !in Named(h1[t.id].ptr.now)
    ensures Exchanged(h0, h, t, t.(kids := t.kids + [branch]))
  {
    assert Own(h0, t.id) == Own(h1, t.id);
    SwappedSets(h0.Keys, Foot(h0, t), Foot(h1, branch), {t.id}, Named(h1[t.id].ptr.now), Named(h[t.id].ptr.now));
  }

  /** Blocks `live`, a tree on `foot`, a branch on `made`: one slot array gives way to another. */
  lemma SwappedSets(live: set<Oid>, foot: set<Oid>, made: set<Oid>, id: set<Oid>, v0: set<Oid>, v: set<Oid>)
    requires foot <= live && made !! live && id + v0 <= foot && id !! v0
    ensures live + made - v0 + v == live - foot + (foot - (id + v0) + (id + v) + made)
  {
  }

  /** A failed push has only read. */
  lemma {:induction false} ReadTurns(h0: Heap, tr0: seq<Heap>, h1: Heap, tr1: seq<Heap>, h: Heap, tr: seq<Heap>,
        t: Tree)
    requires Repr(h0, t) && BesideOnly(h0, tr0, h1, tr1) && Turned(h1, tr1, h, tr, t, t)
    ensures Turned(h0, tr0, h, tr, t, t)
  {
    hide Executed, Repr, Foot, TreeStep, CrashImage;
    ExecutedThen(h0, tr0, h1, tr1, h, tr);
    BesideTurns(h0, tr0, h1, tr1, t);
    ReprIsFixed(h0, t);
    forall k | |tr0| <= k < |tr| ensures TreeStep(h0, tr[k], t, t) {
      if k < |tr1| {
        assert tr[k] == tr1[k];
      } else {
        Rebase(h0, h1, tr[k], t, t);
      }
    }
    Rebase(h0, h1, h, t, t);
  }

  // ----- queries -----

  lemma {:induction false} LookupOfSnoc(key: Name, kids: seq<Tree>, i: nat, request: Dict)
    requires i < |kids|
    ensures LookupOf(key, kids[..i + 1], request) ==
            LookupOf(key, kids[..i], request) + LookupKid(key, kids[i], request)
    decreases i
  {
    if i > 0 {
      assert kids[..i + 1][1..] == kids[1..][..i] && kids[..i][1..] == kids[1..][..i - 1];
      LookupOfSnoc(key, kids[1..], i - 1, request);
    }
  }

  /** What one matching child contributes. */
  function Contribution(kid: Tree, request: Dict): seq<Oid> {
    if kid.Leaf? then [kid.id] else TreeSpec.Lookup(kid, request)
  }

  method Visit(pool: Pool, item: Oid, request: Dict, ghost kid: Tree) returns (found: seq<Oid>)
    requires Repr(pool.heap, kid) && kid.id == item
    modifies pool`heap, pool`trace
    decreases kid, 2
    ensures found == Contribution(kid, request)
    ensures ReadTree(old(pool.heap), old(pool.trace), pool.heap, pool.trace, kid)
  {
    if IsLeaf(pool.heap, item) {
      found := [item];
      NothingRead(pool.heap, pool.trace, kid);
    } else {
      var st;
      st, found := Lookup(pool, item, request, kid);
    }
  }

  /** Item i of the node, if its value passes. */
  method VisitItem(pool: Pool, self: Oid, i: nat, request: Dict, wanted: Option<Name>, ghost t: Tree)
    returns (found: seq<Oid>)
    requires Repr(pool.heap, t) && t.id == self && t.Node? && i < |t.kids|
    modifies pool`heap, pool`trace
    decreases t, 0
    ensures found == if wanted.Some? && t.kids[i].value != wanted.value then [] else Contribution(t.kids[i], request)
    ensures ReadTree(old(pool.heap), old(pool.trace), pool.heap, pool.trace, t)
  {
    ghost var h0, tr0 := pool.heap, pool.trace;
    var item := PersistentVector.At(pool.heap, self, i, IdsOf(t.kids));
    if wanted.Some? && Get(pool.heap, item, NODE_TYPE).value != wanted.value {
      found := [];
      NothingRead(h0, tr0, t);
    } else {
      found := Visit(pool, item, request, t.kids[i]);
      ReadKid(h0, tr0, pool.heap, pool.trace, t, i);
    }
  }

  /** `lookup`. The two loops of the source differ only in the test on the child's value:
      `wanted` is the value the request gives for this node's key, if it gives one. */
  method Lookup(pool: Pool, self: Oid, request: Dict, ghost t: Tree) returns (st: Outcome, result: seq<Oid>)
    requires Repr(pool.heap, t) && t.id == self
    modifies pool`heap, pool`trace
    decreases t, 1
    ensures st == if t.Leaf? then AssertionFailed else Done
    ensures result == if t.Leaf? then [] else TreeSpec.Lookup(t, request)
    ensures Once(result)
    ensures ReadTree(old(pool.heap), old(pool.trace), pool.heap, pool.trace, t)
  {
    hide Turned;
    ghost var h0, tr0 := pool.heap, pool.trace;
    NothingRead(h0, tr0, t);
    result := [];
    if IsLeaf(pool.heap, self) {
      return AssertionFailed, [];
    }
    var key := Get(pool.heap, self, NODE_TYPE).key;
    var wanted := if key in request then Some(request[key]) else None;
    var n := Size(pool, self, t);
    ReadMore(h0, tr0, h0, tr0, pool.heap, pool.trace, t);
    var i := 0;
    while i < n
      invariant i <= n == |t.kids|
      invariant ReadTree(h0, tr0, pool.heap, pool.trace, t)
      invariant result == LookupOf(key, t.kids[..i], request)
    {
      ghost var h1, tr1 := pool.heap, pool.trace;
      var found := VisitItem(pool, self, i, request, wanted, t);
      ReadMore(h0, tr0, h1, tr1, pool.heap, pool.trace, t);
      LookupOfSnoc(key, t.kids, i, request);
      result := result + found;
      i := i + 1;
      ghost var h2, tr2 := pool.heap, pool.trace;
      n := Size(pool, self, t);
      ReadMore(h0, tr0, h2, tr2, pool.heap, pool.trace, t);
    }
    assert t.kids[..i] == t.kids;
    TreeBlocks.LookupOnce(h0, t, request);
    st := Done;
  }

  method Size(pool: Pool, self: Oid, ghost t: Tree) returns (n: nat)
    requires Repr(pool.heap, t) && t.id == self && t.Node?
    modifies pool`heap, pool`trace
    ensures n == |t.kids|
    ensures ReadTree(old(pool.heap), old(pool.trace), pool.heap, pool.trace, t)
  {
    ghost var h0, tr0 := pool.heap, pool.trace;
    n := PersistentVector.Size(pool, self, IdsOf(t.kids));
    SizeKeepsTree(h0, tr0, pool.heap, pool.trace, t);
  }
}
