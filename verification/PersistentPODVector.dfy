/** The vector of plain data: no null elements, so no repair scan. Its consistency rests on the
    order of persists alone: the element first, the counter last. */
module PersistentPODVector {
  import opened Pmem
  import opened PersistentPtr

  const POD_TYPE := 5

  // ----- specification -----

  /** At rest, holding `vals`. Elements beyond the counter are whatever the memory held. */
  ghost predicate PodOk(b: Block, vals: seq<Blob>) {
    && b.PodBlock? && b.cap == |b.elems| && 1 <= b.cap && |vals| <= b.cap
    && (forall i | 0 <= i < |vals| :: b.elems[i] == Durable(vals[i]))
    && b.nelem == Durable(|vals|)
  }

  ghost predicate PodRepr(h: Heap, owner: Oid, vals: seq<Blob>) {
    && owner in h && HasPtr(h[owner]) && Settled(h[owner].ptr)
    && var v := h[owner].ptr.now;
       if v == NULL then vals == [] else Valid(h, v, POD_TYPE) && PodOk(h[v], vals)
  }

  /** Inside an operation that may be appending one of `xs`: the counter may be one ahead only
      once the element it counts is durable and whole. */
  ghost predicate PodMid(b: Block, vals: seq<Blob>, xs: set<Blob>) {
    && b.PodBlock? && b.cap == |b.elems| && 1 <= b.cap && |vals| <= b.cap
    && (forall i | 0 <= i < |vals| :: b.elems[i] == Durable(vals[i]))
    && forall m | m in b.nelem.may ::
         m == |vals| || (m == |vals| + 1 <= b.cap && Settled(b.elems[|vals|]) && b.elems[|vals|].now in xs)
  }

  ghost predicate PodStep(h0: Heap, h: Heap, owner: Oid, vals: seq<Blob>, xs: set<Blob>)
    requires owner in h0 && HasPtr(h0[owner])
  {
    var v0 := h0[owner].ptr.now;
    && owner in h && HasPtr(h[owner])
    && var v := h[owner].ptr.now;
    && h[owner] == WithPtr(h0[owner], Durable(v))
    && (v == v0 || v !in h0)
    && (if v == NULL then vals == [] else v in h && PodMid(h[v], vals, xs))
    && Frame(h0, h, {owner} + Named(v0))
    && h0.Keys - Named(v0) <= h.Keys <= h0.Keys + Named(v)
  }

  lemma {:induction false} PodMidImage(b: Block, b': Block, vals: seq<Blob>, xs: set<Blob>)
    requires PodMid(b, vals, xs) && BlockImage(b, b')
    ensures PodOk(b', vals) || exists x | x in xs :: PodOk(b', vals + [x])
  {
    forall i | 0 <= i < |vals| ensures b'.elems[i] == Durable(vals[i]) {}
    assert b'.nelem == Durable(b'.nelem.now);
    if b'.nelem.now == |vals| + 1 {
      var x := b.elems[|vals|].now;
      assert b'.elems[|vals|] == Durable(x);
      assert PodOk(b', vals + [x]);
    }
  }

  /** A power cut in any state of an operation, torn stores included, recovers the values as
      they were, or with the value in flight appended whole. */
  lemma {:induction false} PodStepImage(h0: Heap, h: Heap, h': Heap, owner: Oid, vals: seq<Blob>, xs: set<Blob>)
    requires PodRepr(h0, owner, vals) && PodStep(h0, h, owner, vals, xs) && CrashImage(h, h')
    ensures PodRepr(h', owner, vals) || exists x | x in xs :: PodRepr(h', owner, vals + [x])
  {
    FixedBlockImage(h[owner], h'[owner]);
    var v := h[owner].ptr.now;
    if v != NULL {
      PodMidImage(h[v], h'[v], vals, xs);
    }
  }

  // ----- the data block -----

  method NewPod(maxSize: nat) returns (b: Block)
    ensures b.PodBlock? && b.cap == maxSize == |b.elems| && b.nelem == Durable(0) && ConstructionDurable(b)
    ensures maxSize >= 1 ==> PodOk(b, [])
  {
    var elements := new Element[maxSize];
    b := PodBlock(maxSize, Durable(0), elements[..]);
  }

  method CopyPod(pool: Pool, source: Oid, maxSize: nat, ghost vals: seq<Blob>) returns (b: Block, ghost copied: nat)
    requires Valid(pool.heap, source, POD_TYPE) && PodOk(pool.heap[source], vals)
    requires maxSize > |vals|
    ensures PodOk(b, vals) && b.cap == maxSize && ConstructionDurable(b) && copied == |vals|
  {
    var from := Get(pool.heap, source, POD_TYPE);
    var n := from.nelem.now;
    var elements := new Element[maxSize];
    copied := 0;
    for i := 0 to n
      modifies elements
      invariant copied == i && forall j | 0 <= j < i :: elements[j] == Durable(vals[j])
    {
      elements[i] := Durable(from.elems[i].now);
      copied := copied + 1;
    }
    b := PodBlock(maxSize, Durable(n), elements[..]);
  }

  /** The four states of a push of x behind n elements: the element stored (possibly torn) and
      persisted, then the count stored and persisted. */
  ghost function PushedStates(h: Heap, v: Oid, n: nat, x: Blob, torn: set<Blob>): (r: seq<Heap>)
    requires IsElem(h, v, n)
    ensures |r| == 4
  {
    var stored := SetElem(h, v, n, Torn(h[v].elems[n], x, torn));
    var whole := SetElem(h, v, n, Durable(x));
    [stored, whole,
     whole[v := WithCount(whole[v], Stored(h[v].nelem, n + 1))],
     whole[v := WithCount(whole[v], Durable(n + 1))]]
  }

  /** In each of them a power cut finds the old values or those and all of x. */
  lemma {:induction false} PushedStatesAreSafe(h: Heap, v: Oid, x: Blob, torn: set<Blob>, vals: seq<Blob>)
    requires v in h && PodOk(h[v], vals) && |vals| < h[v].cap
    ensures forall k | 0 <= k < 4 ::
              var s := PushedStates(h, v, |vals|, x, torn)[k];
              v in s && s == h[v := s[v]] && PodMid(s[v], vals, {x})
    ensures var s := PushedStates(h, v, |vals|, x, torn)[3];
            PodOk(s[v], vals + [x]) && s[v].cap == h[v].cap
  {
    assert Torn(h[v].elems[|vals|], x, torn).now == x;
  }

  /** Element, persist, counter, persist; the whole of what happens, step by step. */
  method DataPushBack(pool: Pool, v: Oid, x: Blob, torn: set<Blob>, ghost vals: seq<Blob>) returns (st: Outcome)
    requires Valid(pool.heap, v, POD_TYPE) && PodOk(pool.heap[v], vals)
    modifies pool`heap, pool`trace
    ensures st == if |vals| == old(pool.heap)[v].cap then OutOfRange else Done
    ensures pool.trace ==
              old(pool.trace) + if st == Done then PushedStates(old(pool.heap), v, |vals|, x, torn) else []
    ensures pool.heap == if st == Done then pool.trace[|pool.trace| - 1] else old(pool.heap)
    ensures Executed(old(pool.heap), old(pool.trace), pool.heap, pool.trace)
  {
    hide OneStep;
    ghost var h0, tr0 := pool.heap, pool.trace;
    NothingExecuted(h0, tr0);
    var b := Get(pool.heap, v, POD_TYPE);
    if b.nelem.now == b.cap {
      return OutOfRange;
    }
    StoreLast(pool, v, b.nelem.now, x, torn);
    ghost var h1, tr1 := pool.heap, pool.trace;
    CountLast(pool, v, b.nelem.now + 1);
    ExecutedThen(h0, tr0, h1, tr1, pool.heap, pool.trace);
    st := Done;
  }

  method StoreLast(pool: Pool, v: Oid, n: nat, x: Blob, torn: set<Blob>)
    requires IsElem(pool.heap, v, n)
    modifies pool`heap, pool`trace
    ensures var h := old(pool.heap);
            && pool.heap == SetElem(h, v, n, Durable(x))
            && pool.trace == old(pool.trace) + [SetElem(h, v, n, Torn(h[v].elems[n], x, torn)), pool.heap]
    ensures Executed(old(pool.heap), old(pool.trace), pool.heap, pool.trace)
  {
    hide Executed;
    pool.StoreElem(v, n, x, torn);
    ghost var h1, tr1 := pool.heap, pool.trace;
    pool.PersistElem(v, n);
    ExecutedThen(old(pool.heap), old(pool.trace), h1, tr1, pool.heap, pool.trace);
    assert pool.heap[v].elems == old(pool.heap)[v].elems[n := Durable(x)];
    assert pool.heap == SetElem(old(pool.heap), v, n, Durable(x));
  }

  method CountLast(pool: Pool, v: Oid, n: nat)
    requires v in pool.heap && pool.heap[v].PodBlock?
    modifies pool`heap, pool`trace
    ensures var h, b := old(pool.heap), old(pool.heap)[v];
            && pool.heap == h[v := WithCount(b, Durable(n))]
            && pool.trace == old(pool.trace) + [h[v := WithCount(b, Stored(b.nelem, n))], pool.heap]
    ensures Executed(old(pool.heap), old(pool.trace), pool.heap, pool.trace)
  {
    hide Executed;
    pool.StoreCount(v, n);
    ghost var h1, tr1 := pool.heap, pool.trace;
    pool.PersistCount(v);
    ExecutedThen(old(pool.heap), old(pool.trace), h1, tr1, pool.heap, pool.trace);
    assert pool.heap == old(pool.heap)[v := WithCount(old(pool.heap)[v], Durable(n))];
  }

  // ----- PersistentPODVector -----

  function Size(h: Heap, owner: Oid, ghost vals: seq<Blob>): (n: nat)
    requires PodRepr(h, owner, vals)
    ensures n == |vals|
  {
    if DataOf(h, owner) == NULL then 0 else Get(h, DataOf(h, owner), POD_TYPE).nelem.now
  }

  function AllocatedSize(h: Heap, owner: Oid): nat
    requires owner in h && HasPtr(h[owner])
    requires DataOf(h, owner) == NULL || Valid(h, DataOf(h, owner), POD_TYPE)
  {
    if DataOf(h, owner) == NULL then 0 else Get(h, DataOf(h, owner), POD_TYPE).cap
  }

  function At(h: Heap, owner: Oid, i: nat, ghost vals: seq<Blob>): (x: Blob)
    requires PodRepr(h, owner, vals) && i < |vals|
    ensures x == vals[i]
  {
    Get(h, DataOf(h, owner), POD_TYPE).elems[i].now
  }

  lemma {:induction false} PodReplaceSteps(h0: Heap, owner: Oid, vals: seq<Blob>, id: Oid, b: Block)
    requires PodRepr(h0, owner, vals) && DataOf(h0, owner) != NULL
    requires id != NULL && id !in h0 && PodOk(b, vals)
    ensures var mid := Published(h0, Field(owner), id, b);
            && PodStep(h0, mid, owner, vals, {})
            && PodStep(h0, mid - {DataOf(h0, owner)}, owner, vals, {})
            && PodRepr(mid - {DataOf(h0, owner)}, owner, vals)
  {
    assert DataOf(h0, owner) != owner;
  }

  /** A first block of the asked size, which may be none. */
  lemma {:induction false} FirstPodStep(h0: Heap, owner: Oid, id: Oid, b: Block)
    requires PodRepr(h0, owner, []) && DataOf(h0, owner) == NULL && id != NULL && id !in h0 && PodOk(b, [])
    ensures var h := Published(h0, Field(owner), id, b);
            PodStep(h0, h, owner, [], {}) && PodRepr(h, owner, [])
  {
  }

  lemma {:induction false} PodAtRestIsStep(h: Heap, owner: Oid, vals: seq<Blob>)
    requires PodRepr(h, owner, vals)
    ensures PodStep(h, h, owner, vals, {})
  {
    assert h[owner] == WithPtr(h[owner], Durable(DataOf(h, owner)));
  }

  method Resize(pool: Pool, owner: Oid, newSize: nat, ghost vals: seq<Blob>) returns (st: Outcome, ghost copied: nat)
    requires PodRepr(pool.heap, owner, vals)
    requires DataOf(pool.heap, owner) == NULL || newSize > |vals|
    modifies pool
    ensures st in {Done, AllocationFailed} && old(pool.trace) <= pool.trace
    ensures newSize >= 1 ==>
              && PodRepr(pool.heap, owner, vals) && PodStep(old(pool.heap), pool.heap, owner, vals, {})
              && forall k | |old(pool.trace)| <= k < |pool.trace| ::
                   PodStep(old(pool.heap), pool.trace[k], owner, vals, {})
    ensures newSize == 0 ==> pool.trace == old(pool.trace) + if st == Done then [pool.heap] else []
    ensures st == Done ==>
              && owner in pool.heap && HasPtr(pool.heap[owner])
              && var v := DataOf(pool.heap, owner);
              && v != NULL && v !in old(pool.heap) && Valid(pool.heap, v, POD_TYPE) && pool.heap[v].cap == newSize
              && pool.heap[v].nelem == Durable(|vals|)
              && pool.heap.Keys == Swapped(old(pool.heap).Keys, DataOf(old(pool.heap), owner), v)
              && Frame(old(pool.heap), pool.heap, {owner} + Named(DataOf(old(pool.heap), owner)))
              && copied == if DataOf(old(pool.heap), owner) == NULL then 0 else |vals|
    ensures st != Done ==> pool.heap == old(pool.heap) && pool.trace == old(pool.trace)
    ensures Executed(old(pool.heap), old(pool.trace), pool.heap, pool.trace)
    ensures pool.refusals == old(pool.refusals) + Refusal(st)
  {
    hide PodStep, PodOk, Executed;
    ghost var h0, tr0 := pool.heap, pool.trace;
    NothingExecuted(h0, tr0);
    var v := DataOf(pool.heap, owner);
    PodAtRestIsStep(h0, owner, vals);
    if v == NULL {
      var b := NewPod(newSize);
      var ok, id := AllocateCtr(pool, Field(owner), b);
      if ok && newSize >= 1 {
        FirstPodStep(h0, owner, id, b);
      }
      st, copied := if ok then Done else AllocationFailed, 0;
    } else {
      var b;
      b, copied := CopyPod(pool, v, newSize, vals);
      PodCounts(b, vals);
      var ok, id := ReplaceCtr(pool, Field(owner), b);
      if ok {
        PodReplaceSteps(h0, owner, vals, id, b);
      }
      st := if ok then Done else AllocationFailed;
    }
  }

  lemma {:induction false} PodCounts(b: Block, vals: seq<Blob>)
    requires PodOk(b, vals)
    ensures b.PodBlock? && b.nelem == Durable(|vals|)
  {
  }

  /** Room is made, then the data block changes. */
  lemma {:induction false} RoomThenPod(h0: Heap, h1: Heap, h: Heap, owner: Oid, vals: seq<Blob>, xs: set<Blob>)
    requires owner in h0 && HasPtr(h0[owner]) && PodStep(h0, h1, owner, vals, {})
    requires var v := DataOf(h1, owner);
             v != NULL && v != owner && v in h1 && v in h && h == h1[v := h[v]] && PodMid(h[v], vals, xs)
    ensures PodStep(h0, h, owner, vals, xs)
  {
  }

  lemma {:induction false} MorePod(h0: Heap, h: Heap, owner: Oid, vals: seq<Blob>, xs: set<Blob>)
    requires owner in h0 && HasPtr(h0[owner]) && PodStep(h0, h, owner, vals, {})
    ensures PodStep(h0, h, owner, vals, xs)
  {
  }

  /** The common first part: a first block of one slot, or twice the space. */
  method MakeRoom(pool: Pool, owner: Oid, ghost vals: seq<Blob>) returns (st: Outcome, ghost copied: nat)
    requires PodRepr(pool.heap, owner, vals)
    modifies pool
    ensures st in {Done, AllocationFailed} && old(pool.trace) <= pool.trace
    ensures PodRepr(pool.heap, owner, vals) && PodStep(old(pool.heap), pool.heap, owner, vals, {})
    ensures forall k | |old(pool.trace)| <= k < |pool.trace| :: PodStep(old(pool.heap), pool.trace[k], owner, vals, {})
    ensures st == Done ==>
              && DataOf(pool.heap, owner) != NULL && |vals| < AllocatedSize(pool.heap, owner)
              && var cap := AllocatedSize(old(pool.heap), owner);
              && AllocatedSize(pool.heap, owner) == (if cap == 0 then 1 else if |vals| == cap then 2 * cap else cap)
              && copied == (if |vals| == cap then cap else 0)
              && pool.heap.Keys == Swapped(old(pool.heap).Keys, DataOf(old(pool.heap), owner), DataOf(pool.heap, owner))
    ensures st != Done ==> pool.heap == old(pool.heap)
    ensures Executed(old(pool.heap), old(pool.trace), pool.heap, pool.trace)
    ensures pool.refusals == old(pool.refusals) + Refusal(st)
    ensures |vals| < AllocatedSize(old(pool.heap), owner) ==>
              st == Done && DataOf(pool.heap, owner) == DataOf(old(pool.heap), owner)
              && SameLive(old(pool.heap), old(pool.trace), pool.trace)
  {
    hide PodStep, Executed;
    ghost var h0, tr0 := pool.heap, pool.trace;
    NothingExecuted(h0, tr0);
    PodAtRestIsStep(pool.heap, owner, vals);
    st, copied := Done, 0;
    if DataOf(pool.heap, owner) == NULL {
      st, copied := Resize(pool, owner, 1, vals);
      if st != Done {
        return;
      }
    }
    ghost var h1, tr1 := pool.heap, pool.trace;
    if Size(pool.heap, owner, vals) == AllocatedSize(pool.heap, owner) {
      st, copied := Resize(pool, owner, Size(pool.heap, owner, vals) * 2, vals);
      ExecutedThen(h0, tr0, h1, tr1, pool.heap, pool.trace);
    }
  }

  /** The trace ends with the four states of a push of x behind n elements in block v. */
  ghost predicate EndsWithPush(h0: Heap, tr0: seq<Heap>, tr: seq<Heap>, v: Oid, n: nat, x: Blob, torn: set<Blob>) {
    && |tr0| + 4 <= |tr|
    && var h1 := StateAt(h0, |tr0|, tr, |tr| - 4);
       IsElem(h1, v, n) && tr[|tr| - 4..] == PushedStates(h1, v, n, x, torn)
  }

  method PushBack(pool: Pool, owner: Oid, x: Blob, torn: set<Blob>, ghost vals: seq<Blob>)
    returns (st: Outcome, ghost copied: nat)
    requires PodRepr(pool.heap, owner, vals)
    modifies pool
    ensures st in {Done, AllocationFailed} && old(pool.trace) <= pool.trace
    ensures forall k | |old(pool.trace)| <= k < |pool.trace| :: PodStep(old(pool.heap), pool.trace[k], owner, vals, {x})
    ensures PodStep(old(pool.heap), pool.heap, owner, vals, {x})
    ensures st == Done ==>
              && PodRepr(pool.heap, owner, vals + [x])
              && var cap := AllocatedSize(old(pool.heap), owner);
              && AllocatedSize(pool.heap, owner) == (if cap == 0 then 1 else if |vals| == cap then 2 * cap else cap)
              && copied == (if |vals| == cap then cap else 0)
              && pool.heap.Keys == Swapped(old(pool.heap).Keys, DataOf(old(pool.heap), owner), DataOf(pool.heap, owner))
    ensures st == Done ==>
              EndsWithPush(old(pool.heap), old(pool.trace), pool.trace, DataOf(pool.heap, owner), |vals|, x, torn)
    ensures st != Done ==> pool.heap == old(pool.heap)
    ensures Executed(old(pool.heap), old(pool.trace), pool.heap, pool.trace)
    ensures pool.refusals == old(pool.refusals) + Refusal(st)
    ensures |vals| < AllocatedSize(old(pool.heap), owner) ==>
              st == Done && DataOf(pool.heap, owner) == DataOf(old(pool.heap), owner)
              && SameLive(old(pool.heap), old(pool.trace), pool.trace)
  {
    hide PodStep, Executed, PushedStates;
    ghost var h0, tr0 := pool.heap, pool.trace;
    st, copied := MakeRoom(pool, owner, vals);
    ghost var h1, tr1 := pool.heap, pool.trace;
    if st == Done {
      PushedStatesAreSafe(h1, DataOf(h1, owner), x, torn, vals);
      st := DataPushBack(pool, DataOf(pool.heap, owner), x, torn, vals);
      ExecutedThen(h0, tr0, h1, tr1, pool.heap, pool.trace);
      assert pool.heap == PushedStates(h1, DataOf(h1, owner), |vals|, x, torn)[3];
      assert StateAt(h0, |tr0|, pool.trace, |tr1|) == h1 by {
        LastOfTrace(h0, tr0, h1, tr1);
      }
      assert pool.trace[|pool.trace| - 4..] == PushedStates(h1, DataOf(h1, owner), |vals|, x, torn);
    }
    forall k | |tr0| <= k < |pool.trace| ensures PodStep(h0, pool.trace[k], owner, vals, {x}) {
      if k < |tr1| {
        MorePod(h0, pool.trace[k], owner, vals, {x});
      } else {
        RoomThenPod(h0, h1, pool.trace[k], owner, vals, {x});
      }
    }
    if st == Done {
      RoomThenPod(h0, h1, pool.heap, owner, vals, {x});
    } else {
      MorePod(h0, h1, owner, vals, {x});
    }
  }
}
