/** What a PersistentVector means, at rest and in the middle of an operation. The lemmas on putting
    steps together, and `PushStates`, `ReplaceSteps` and the `RoomThen...` lemmas of
    PersistentVector, are one-step glue for the methods. */
module VectorSpec {
  import opened Pmem
  import opened PersistentPtr

  /** The block b is at rest and holds exactly `kids`. The counter may be one behind: that is
      what a power cut between the slot and the counter leaves, and what the next
      `consistency_check` repairs. */
  ghost predicate VecOk(b: Block, kids: seq<Oid>) {
    && b.VectorBlock? && b.cap == |b.slots| && 1 <= b.cap && |kids| <= b.cap
    && (forall i | 0 <= i < |kids| :: kids[i] != NULL && b.slots[i] == Durable(kids[i]))
    && (forall i | |kids| <= i < b.cap :: b.slots[i] == Durable(NULL))
    && Settled(b.nelem) && |kids| - 1 <= b.nelem.now <= |kids|
  }

  /** The vector member of the object `owner` holds `kids`; a null vector holds nothing. */
  ghost predicate VecRepr(h: Heap, owner: Oid, kids: seq<Oid>) {
    && owner in h && HasPtr(h[owner]) && Settled(h[owner].ptr)
    && var v := h[owner].ptr.now;
       if v == NULL then kids == [] else Valid(h, v, VECTOR_TYPE) && VecOk(h[v], kids)
  }

  /** The block b is inside an operation on a vector that held `kids`; the operation may be
      appending one of `xs`. The counter can be ahead of a slot only once that slot is durable. */
  ghost predicate VecMid(b: Block, kids: seq<Oid>, xs: set<Oid>) {
    && b.VectorBlock? && b.cap == |b.slots| && 1 <= b.cap && |kids| <= b.cap
    && (forall i | 0 <= i < |kids| :: kids[i] != NULL && b.slots[i] == Durable(kids[i]))
    && (forall i | |kids| < i < b.cap :: b.slots[i] == Durable(NULL))
    && (forall m | m in b.nelem.may :: |kids| - 1 <= m <= |kids| + 1)
    && if |kids| == b.cap then forall m | m in b.nelem.may :: m <= |kids|
       else var slot := b.slots[|kids|];
            && slot.may <= {NULL} + xs
            && (NULL in slot.may ==> forall m | m in b.nelem.may :: m <= |kids|)
            && (slot.may != {NULL} ==> forall m | m in b.nelem.may :: |kids| <= m)
  }

  /** h is a state passed through by one operation on the vector of `owner` that started in h0
      with contents `kids`. Other blocks are untouched, the vector pointer is durable and names
      a live block, and apart from appended elements at most one block is neither reachable
      nor old: the one that a resize is about to give back. */
  ghost predicate VecStep(h0: Heap, h: Heap, owner: Oid, kids: seq<Oid>, xs: set<Oid>)
    requires owner in h0 && HasPtr(h0[owner])
  {
    var v0 := h0[owner].ptr.now;
    && owner in h && HasPtr(h[owner])
    && var v := h[owner].ptr.now;
    && h[owner] == WithPtr(h0[owner], Durable(v))
    && (v == v0 || v !in h0)
    && (if v == NULL then kids == [] else v in h && VecMid(h[v], kids, xs))
    && Frame(h0, h, {owner} + Named(v0))
    && h0.Keys - Named(v0) <= h.Keys <= h0.Keys + Named(v) + xs
  }

  /** Only the block v has changed since h0. */
  ghost predicate DataStep(h0: Heap, h: Heap, v: Oid, kids: seq<Oid>, xs: set<Oid>) {
    v in h0 && v in h && h == h0[v := h[v]] && VecMid(h[v], kids, xs)
  }

  /** Wherever the slot behind `kids` can be found naming x, the object `elem` is live at x. */
  ghost predicate Backed(h: Heap, owner: Oid, kids: seq<Oid>, x: Oid, elem: Block) {
    && owner in h && HasPtr(h[owner])
    && var v := h[owner].ptr.now;
       v != NULL && v in h && h[v].VectorBlock? && |kids| < |h[v].slots| && x in h[v].slots[|kids|].may ==>
         x != owner && x != v && x in h && h[x] == elem
  }

  // ----- power cuts -----

  lemma {:induction false} VecMidImage(b: Block, b': Block, kids: seq<Oid>, xs: set<Oid>)
    requires VecMid(b, kids, xs) && NULL !in xs && BlockImage(b, b')
    ensures VecOk(b', kids) || exists x | x in xs :: VecOk(b', kids + [x])
  {
    forall i | 0 <= i < |kids| ensures b'.slots[i] == Durable(kids[i]) {}
    forall i | |kids| < i < b.cap ensures b'.slots[i] == Durable(NULL) {}
    if |kids| < b.cap {
      var x := b'.slots[|kids|].now;
      assert CellImage(b.slots[|kids|], b'.slots[|kids|]);
      if x != NULL {
        assert x in xs && VecOk(b', kids + [x]);
      }
    }
  }

  /** A power cut in any state of an operation recovers the vector as it was before the
      operation, or with the element in flight appended whole. */
  lemma {:induction false} VecStepImage(h0: Heap, h: Heap, h': Heap, owner: Oid, kids: seq<Oid>, xs: set<Oid>)
    requires VecRepr(h0, owner, kids) && VecStep(h0, h, owner, kids, xs)
    requires NULL !in xs && CrashImage(h, h')
    ensures VecRepr(h', owner, kids) || exists x | x in xs :: VecRepr(h', owner, kids + [x])
    ensures owner in h' && h'[owner] == h[owner]
  {
    FixedBlockImage(h[owner], h'[owner]);
    var v := h[owner].ptr.now;
    if v != NULL {
      VecMidImage(h[v], h'[v], kids, xs);
    }
  }

  /** If a power cut finds the new element in the vector, it finds the object it names. */
  lemma {:induction false} BackedImage(h: Heap, h': Heap, owner: Oid, kids: seq<Oid>, x: Oid, elem: Block)
    requires Backed(h, owner, kids, x, elem) && Settled(h[owner].ptr) && CrashImage(h, h')
    requires VecRepr(h', owner, kids + [x])
    ensures x != owner && x != h'[owner].ptr.now && x in h' && BlockImage(elem, h'[x])
  {
    FixedBlockImage(h[owner], h'[owner]);
    var v := h'[owner].ptr.now;
    assert v != NULL && BlockImage(h[v], h'[v]);
    assert h'[v].slots[|kids|] == Durable((kids + [x])[|kids|]);
  }

  /** While a vector is replaced by a larger copy, its pointer names a live block at every step,
      and at most one block is live that neither the vector nor anything else accounts for. */
  lemma {:induction false} ReplaceLeaksAtMostOne(h0: Heap, h: Heap, owner: Oid, kids: seq<Oid>)
    requires VecRepr(h0, owner, kids) && VecStep(h0, h, owner, kids, {})
    ensures kids != [] ==> Valid(h, h[owner].ptr.now, VECTOR_TYPE)
    ensures |h.Keys - (h0.Keys - Named(h0[owner].ptr.now) + Named(h[owner].ptr.now))| <= 1
  {
    var stray := h.Keys - (h0.Keys - Named(h0[owner].ptr.now) + Named(h[owner].ptr.now));
    assert stray <= Named(h0[owner].ptr.now);
    if stray != {} {
      assert stray == {h0[owner].ptr.now};
    }
  }

  // ----- putting steps together -----

  lemma {:induction false} AtRestIsStep(h: Heap, owner: Oid, kids: seq<Oid>, xs: set<Oid>)
    requires VecRepr(h, owner, kids)
    ensures VecStep(h, h, owner, kids, xs)
  {
    assert h[owner] == WithPtr(h[owner], Durable(h[owner].ptr.now));
  }

  lemma {:induction false} StepThenData(h0: Heap, h1: Heap, h: Heap, owner: Oid, kids: seq<Oid>, xs: set<Oid>)
    requires owner in h0 && HasPtr(h0[owner]) && VecStep(h0, h1, owner, kids, {})
    requires h1[owner].ptr.now != NULL && h1[owner].ptr.now != owner
    requires DataStep(h1, h, h1[owner].ptr.now, kids, xs)
    ensures VecStep(h0, h, owner, kids, xs)
  {
  }

  lemma {:induction false} DataThenStep(h0: Heap, h1: Heap, h: Heap, owner: Oid, kids: seq<Oid>, xs: set<Oid>)
    requires owner in h0 && HasPtr(h0[owner])
    requires h0[owner].ptr.now in h0 && h0[owner].ptr.now != owner && h0[owner].ptr.now != NULL
    requires h0[owner].ptr.now in h1 && h1 == h0[h0[owner].ptr.now := h1[h0[owner].ptr.now]]
    requires VecStep(h1, h, owner, kids, xs)
    ensures VecStep(h0, h, owner, kids, xs)
  {
  }

  lemma {:induction false} MoreInFlight(h0: Heap, h: Heap, owner: Oid, kids: seq<Oid>, xs: set<Oid>)
    requires owner in h0 && HasPtr(h0[owner]) && VecStep(h0, h, owner, kids, {})
    ensures VecStep(h0, h, owner, kids, xs)
  {
  }
}
