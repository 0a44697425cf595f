/** TreeRoot and TreeObject: the first insertion, and the whole of an insertion or a query by
    dictionary. */
module TreeRoot {
  import opened Pmem
  import opened PersistentPtr
  import opened TreeSpec
  import opened TreeHeap
  import TreeNode

  // ----- the root object -----

  /** The root object holds the tree `held`, or none yet. Its pointer is assigned once, from
      null, without a persist: so long as nothing has made it durable, a power cut can still
      find it null. */
  ghost predicate RootRepr(h: Heap, root: Oid, held: Option<Tree>) {
    && root in h && h[root].RootBlock? && h[root].ptr.may <= {NULL, h[root].ptr.now}
    && match held
       case None => h[root].ptr.now == NULL
       case Some(t) => t.Node? && h[root].ptr.now == t.id && Repr(h, t) && root !in Foot(h, t)
  }

  ghost predicate RootMayBeNull(h: Heap, root: Oid)
    requires root in h && h[root].RootBlock?
  {
    NULL in h[root].ptr.may
  }

  /** A power cut in h finds the tree before the call or the tree after it; or no tree at all,
      if that was already possible when the call began. */
  ghost predicate RootStep(h0: Heap, h: Heap, root: Oid, held: Option<Tree>, held': Option<Tree>)
    requires root in h0 && h0[root].RootBlock?
  {
    forall h' | CrashImage(h, h') ::
      RootRepr(h', root, held) || RootRepr(h', root, held') || (RootMayBeNull(h0, root) && RootRepr(h', root, None))
  }

  lemma {:induction false} RootImage(h: Heap, h': Heap, root: Oid)
    requires root in h && h[root].RootBlock? && CrashImage(h, h')
    ensures root in h' && h'[root].RootBlock? && h'[root].ptr.may == {h'[root].ptr.now}
    ensures h'[root].ptr.now in h[root].ptr.may
  {
    assert BlockImage(h[root], h'[root]);
  }

  lemma {:induction false} RecoveredUnderRoot(h0: Heap, h': Heap, root: Oid, t: Tree, t': Tree)
    requires RootRepr(h0, root, Some(t)) && Recovers(h0, t, h', t') && t'.id == t.id && t'.Node?
    requires root in h' && h'[root].RootBlock? && h'[root].ptr == Durable(t.id)
    ensures RootRepr(h', root, Some(t'))
  {
  }

  lemma {:induction false} TreeStepIsRootStep(h0: Heap, h: Heap, root: Oid, t: Tree, t': Tree)
    requires RootRepr(h0, root, Some(t)) && TreeStep(h0, h, t, t') && t'.id == t.id && t'.Node?
    ensures RootStep(h0, h, root, Some(t), Some(t'))
  {
    hide Repr, Foot, Recovers;
    forall h': Heap | CrashImage(h, h')
      ensures || RootRepr(h', root, Some(t))
              || RootRepr(h', root, Some(t'))
              || (RootMayBeNull(h0, root) && RootRepr(h', root, None))
    {
      assert h[root] == h0[root];
      RootImage(h, h', root);
      if h'[root].ptr.now == t.id {
        if Recovers(h0, t, h', t) {
          RecoveredUnderRoot(h0, h', root, t, t);
        } else {
          RecoveredUnderRoot(h0, h', root, t, t');
        }
      }
    }
  }

  /** While the first branch is being built, and once the root points to it. */
  lemma {:induction false} FirstBranchSteps(h0: Heap, tr0: seq<Heap>, h: Heap, tr: seq<Heap>, root: Oid,
        held': Option<Tree>)
    requires RootRepr(h0, root, None) && TreeNode.BesideOnly(h0, tr0, h, tr)
    ensures forall k | |tr0| <= k < |tr| :: RootStep(h0, tr[k], root, None, held')
  {
    forall k | |tr0| <= k < |tr| ensures RootStep(h0, tr[k], root, None, held') {
      assert tr[k][root] == h0[root];
      forall h' | CrashImage(tr[k], h') ensures RootRepr(h', root, None) {
        RootImage(tr[k], h', root);
      }
    }
  }

  lemma {:induction false} FirstBranchPublished(h0: Heap, h1: Heap, root: Oid, t: Tree)
    requires RootRepr(h0, root, None) && TreeNode.BuiltBeside(h0, h1, t) && t.Node? && Frame(h0, h1, {})
    ensures var h := SetPtr(h1, Field(root), Stored(h1[root].ptr, t.id));
            RootRepr(h, root, Some(t)) && RootStep(h0, h, root, None, Some(t))
  {
    var h := SetPtr(h1, Field(root), Stored(h1[root].ptr, t.id));
    assert h1[root] == h0[root];
    ReprIsFixed(h1, t);
    ReprFrame(h1, h, t);
    forall h' | CrashImage(h, h') ensures RootRepr(h', root, None) || RootRepr(h', root, Some(t)) {
      PublishedImage(h, h', root, t);
    }
  }

  /** A power cut may lose the root pointer, but not what it points to. */
  lemma {:induction false} PublishedImage(h: Heap, h': Heap, root: Oid, t: Tree)
    requires RootRepr(h, root, Some(t)) && CrashImage(h, h')
    ensures RootRepr(h', root, None) || RootRepr(h', root, Some(t))
  {
    RootImage(h, h', root);
    ReprIsFixed(h, t);
    forall x | x in Foot(h, t) ensures x in h' && h'[x] == h[x] {
      FixedBlockImage(h[x], h'[x]);
    }
    ReprFrame(h, h', t);
  }

  lemma {:induction false} TurnedUnderRoot(h0: Heap, tr0: seq<Heap>, h: Heap, tr: seq<Heap>, root: Oid, t: Tree,
        t': Tree)
    requires RootRepr(h0, root, Some(t)) && Turned(h0, tr0, h, tr, t, t') && t'.id == t.id && t'.Node?
    ensures tr0 <= tr && Executed(h0, tr0, h, tr) && RootRepr(h, root, Some(t')) && h[root] == h0[root]
    ensures forall k | |tr0| <= k < |tr| :: RootStep(h0, tr[k], root, Some(t), Some(t'))
  {
    hide CrashImage, Repr, Executed;
    forall k | |tr0| <= k < |tr| ensures RootStep(h0, tr[k], root, Some(t), Some(t')) {
      TreeStepIsRootStep(h0, tr[k], root, t, t');
    }
  }

  // ----- durability -----

  /** Whenever the power fails in h, this is what is found. */
  ghost predicate AlwaysFound(h: Heap, root: Oid, held: Option<Tree>) {
    forall h' | CrashImage(h, h') :: RootRepr(h', root, held)
  }

  /** Otherwise the tree can be lost: some power cut finds none. */
  lemma {:induction false} TreeCanBeLost(h: Heap, root: Oid, t: Tree) returns (image: Heap)
    requires RootRepr(h, root, Some(t)) && !Settled(h[root].ptr)
    ensures CrashImage(h, image) && RootRepr(image, root, None)
  {
    var lost := RootBlock(Durable(NULL));
    assert h[root].ptr.now in h[root].ptr.may;
    assert NULL in h[root].ptr.may;
    assert BlockImage(h[root], lost);
    ImageWithIsImage(h, root, lost);
    image := ImageWith(h, root, lost);
  }

  /** The exact condition under which what has been stored survives every power cut: the root
      pointer must have become durable. */
  lemma {:induction false} TreeSurvivesIff(h: Heap, root: Oid, t: Tree)
    requires RootRepr(h, root, Some(t))
    ensures AlwaysFound(h, root, Some(t)) <==> Settled(h[root].ptr)
  {
    if Settled(h[root].ptr) {
      forall h' | CrashImage(h, h') ensures RootRepr(h', root, Some(t)) {
        RootImage(h, h', root);
        PublishedImage(h, h', root, t);
      }
    } else {
      var image := TreeCanBeLost(h, root, t);
      assert !RootRepr(image, root, Some(t));
    }
  }

  /** The condition before the call: what an insertion has stored is durable when it returns if
      and only if a tree was already held, under a durable root pointer. The first insertion never
      is: some power cut finds no tree. */
  lemma {:induction false} DurableIff(h0: Heap, h: Heap, root: Oid, held: Option<Tree>, t': Tree)
    requires RootRepr(h0, root, held) && RootRepr(h, root, Some(t'))
    requires h[root].ptr == if held.Some? then h0[root].ptr else Stored(h0[root].ptr, t'.id)
    ensures AlwaysFound(h, root, Some(t')) <==> held.Some? && Settled(h0[root].ptr)
    ensures held.None? ==> exists image :: CrashImage(h, image) && RootRepr(image, root, None)
  {
    TreeSurvivesIff(h, root, t');
    if held.None? {
      assert h0[root].ptr.now in h0[root].ptr.may;
      assert NULL in h[root].ptr.may;
      var image := TreeCanBeLost(h, root, t');
    }
  }

  // ----- insertion -----

  /** How a call of addNode has ended. */
  ghost predicate RootAnswers(st: Outcome, held: Option<Tree>, held': Option<Tree>, key: Path, blob: Blob,
                              ids: seq<Oid>)
  {
    && |ids| == |key| + 1 && (st != Done ==> held' == held)
    && if key == [] then st == AssertionFailed
       else match held
         case None => if st == Done then held' == Some(Chain(key[0].key, key, blob, ids)) else st == AllocationFailed
         case Some(t) =>
           var r := Insert(t, key, blob, ids[1..]);
           if st == Done then held'.Some? && r == Inserted(held'.value)
           else if st == AllocationFailed then r.Inserted?
           else r == Refused(st)
  }

  /** All blocks of what the root object holds. */
  ghost function Used(h: Heap, held: Option<Tree>): set<Oid> {
    match held
    case None => {}
    case Some(t) => Foot(h, t)
  }

  /** Nothing outside the tree is touched or taken into it. Unless an allocation has failed, the live blocks
      outside it are the same as before; a refused call allocates and frees nothing. */
  ghost predicate Conserved(st: Outcome, h0: Heap, h: Heap, root: Oid, held: Option<Tree>, held': Option<Tree>) {
    && Frame(h0, h, {root} + Used(h0, held))
    && (forall x | x in Used(h, held') && x in h0 :: x in Used(h0, held))
    && (st != AllocationFailed ==> h.Keys == h0.Keys - Used(h0, held) + Used(h, held'))
    && (st !in {Done, AllocationFailed} ==> h.Keys == h0.Keys)
  }

  lemma {:induction false} NothingConserved(st: Outcome, h: Heap, root: Oid, held: Option<Tree>)
    requires RootRepr(h, root, held)
    ensures Conserved(st, h, h, root, held, held)
  {
    if held.Some? {
      ReprIsFixed(h, held.value);
    }
  }

  /** The first branch, and the root pointer assigned to it. */
  lemma {:induction false} FirstConserved(h0: Heap, h1: Heap, root: Oid, t: Tree)
    requires RootRepr(h0, root, None) && TreeNode.BuiltBeside(h0, h1, t) && Frame(h0, h1, {})
    ensures var h := SetPtr(h1, Field(root), Stored(h1[root].ptr, t.id));
            Conserved(Done, h0, h, root, None, Some(t))
  {
    var h := SetPtr(h1, Field(root), Stored(h1[root].ptr, t.id));
    ReprIsFixed(h1, t);
    ReprFrame(h1, h, t);
  }

  lemma {:induction false} FurtherConserved(st: Outcome, h0: Heap, tr0: seq<Heap>, h: Heap, tr: seq<Heap>,
        root: Oid, t: Tree, t': Tree, key: Path, blob: Blob, ids: seq<Oid>)
    requires Turned(h0, tr0, h, tr, t, t') && TreeNode.Answers(st, h0, h, t, t', key, blob, ids)
    ensures Conserved(st, h0, h, root, Some(t), Some(t'))
  {
    hide Foot, CrashImage, Repr;
  }

  method AddNode(pool: Pool, root: Oid, key: Path, blob: Blob, ghost held: Option<Tree>)
    returns (st: Outcome, ghost held': Option<Tree>, ghost ids: seq<Oid>)
    requires RootRepr(pool.heap, root, held)
    modifies pool
    ensures RootRepr(pool.heap, root, held') && RootAnswers(st, held, held', key, blob, ids)
    ensures old(pool.trace) <= pool.trace && Executed(old(pool.heap), old(pool.trace), pool.heap, pool.trace)
    ensures forall k | |old(pool.trace)| <= k < |pool.trace| ::
              RootStep(old(pool.heap), pool.trace[k], root, held, held')
    ensures held.Some? ==> held'.Some? && pool.heap[root] == old(pool.heap)[root]
    ensures held.None? && st == Done ==> pool.heap[root].ptr == Stored(old(pool.heap)[root].ptr, held'.value.id)
    ensures held.None? && st != Done ==> pool.heap[root] == old(pool.heap)[root]
    ensures Conserved(st, old(pool.heap), pool.heap, root, held, held')
    ensures st == Done ==> (AlwaysFound(pool.heap, root, held') <==> held.Some? && Settled(old(pool.heap)[root].ptr))
    ensures key == [] ==> pool.heap == old(pool.heap) && pool.trace == old(pool.trace)
    ensures st == Done && held.None? ==> exists image :: CrashImage(pool.heap, image) && RootRepr(image, root, None)
    ensures pool.refusals == old(pool.refusals) + Refusal(st)
    ensures st !in {Done, AllocationFailed} ==> SameLive(old(pool.heap), old(pool.trace), pool.trace)
  {
    hide RootStep, Foot, AlwaysFound, Conserved, CrashImage, Executed;
    ghost var h0 := pool.heap;
    NothingExecuted(h0, pool.trace);
    if |key| == 0 {
      NothingConserved(AssertionFailed, h0, root, held);
      return AssertionFailed, held, [NULL];
    }
    if pool.heap[root].ptr.now == NULL {
      st, held', ids := AddFirst(pool, root, key, blob);
    } else {
      st, held', ids := AddFurther(pool, root, key, blob, held.value);
    }
    if st == Done {
      DurableIff(h0, pool.heap, root, held, held'.value);
    }
  }

  /** No tree yet: build one, then assign the root pointer, without a persist. */
  method AddFirst(pool: Pool, root: Oid, key: Path, blob: Blob)
    returns (st: Outcome, ghost held': Option<Tree>, ghost ids: seq<Oid>)
    requires RootRepr(pool.heap, root, None) && key != []
    modifies pool
    ensures RootRepr(pool.heap, root, held') && RootAnswers(st, None, held', key, blob, ids)
    ensures old(pool.trace) <= pool.trace && Executed(old(pool.heap), old(pool.trace), pool.heap, pool.trace)
    ensures forall k | |old(pool.trace)| <= k < |pool.trace| ::
              RootStep(old(pool.heap), pool.trace[k], root, None, held')
    ensures st == Done ==> pool.heap[root].ptr == Stored(old(pool.heap)[root].ptr, held'.value.id)
    ensures st != Done ==> pool.heap[root] == old(pool.heap)[root]
    ensures Conserved(st, old(pool.heap), pool.heap, root, None, held')
    ensures pool.refusals == old(pool.refusals) + Refusal(st)
    ensures st !in {Done, AllocationFailed} ==> SameLive(old(pool.heap), old(pool.trace), pool.trace)
  {
    hide RootStep, OneStep;
    ghost var h0, tr0 := pool.heap, pool.trace;
    held' := None;
    var branch;
    st, branch, ids := TreeNode.AllocateNested(pool, key[0].key, key, blob);
    ghost var h1, tr1 := pool.heap, pool.trace;
    if st == Done {
      held' := Some(Chain(key[0].key, key, blob, ids));
      FirstBranchPublished(h0, h1, root, held'.value);
      FirstConserved(h0, h1, root, held'.value);
      pool.StorePtr(Field(root), branch);
      ExecutedThen(h0, tr0, h1, tr1, pool.heap, pool.trace);
    }
    FirstBranchSteps(h0, tr0, h1, tr1, root, held');
  }

  method AddFurther(pool: Pool, root: Oid, key: Path, blob: Blob, ghost t: Tree)
    returns (st: Outcome, ghost held': Option<Tree>, ghost ids: seq<Oid>)
    requires RootRepr(pool.heap, root, Some(t)) && key != []
    modifies pool
    ensures RootRepr(pool.heap, root, held') && RootAnswers(st, Some(t), held', key, blob, ids)
    ensures old(pool.trace) <= pool.trace && Executed(old(pool.heap), old(pool.trace), pool.heap, pool.trace)
    ensures forall k | |old(pool.trace)| <= k < |pool.trace| ::
              RootStep(old(pool.heap), pool.trace[k], root, Some(t), held')
    ensures held'.Some? && pool.heap[root] == old(pool.heap)[root]
    ensures Conserved(st, old(pool.heap), pool.heap, root, Some(t), held')
    ensures pool.refusals == old(pool.refusals) + Refusal(st)
    ensures st !in {Done, AllocationFailed} ==> SameLive(old(pool.heap), old(pool.trace), pool.trace)
  {
    hide Turned, RootStep, Conserved, Executed;
    ghost var h0, tr0 := pool.heap, pool.trace;
    NothingExecuted(h0, tr0);
    var node := pool.heap[root].ptr.now;
    if Get(pool.heap, node, NODE_TYPE).key != key[0].key {
      NothingConserved(AssertionFailed, h0, root, Some(t));
      return AssertionFailed, Some(t), seq(|key| + 1, _ => NULL);
    }
    ghost var t', below;
    st, t', below := TreeNode.AddNode(pool, node, key, blob, t);
    FurtherConserved(st, h0, tr0, pool.heap, pool.trace, root, t, t', key, blob, below);
    ids, held' := [NULL] + below, Some(t');
    assert ids[1..] == below;
    TurnedUnderRoot(h0, tr0, pool.heap, pool.trace, root, t, t');
  }
}
