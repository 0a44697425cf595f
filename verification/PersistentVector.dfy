/** PersistentVectorData (the block) and PersistentVector (the pointer to it). */
module PersistentVector {
  import opened Pmem
  import opened PersistentPtr
  import opened VectorSpec

  // ----- the repair scan -----

  predicate Shaped(b: Block) {
    b.VectorBlock? && b.cap == |b.slots| && b.nelem.now <= b.cap
  }

  function FirstNull(slots: seq<Word>, n: nat): (r: nat)
    requires n <= |slots|
    ensures n <= r <= |slots|
    ensures forall i | n <= i < r :: slots[i].now != NULL
    ensures r < |slots| ==> slots[r].now == NULL
    decreases |slots| - n
  {
    if n == |slots| || slots[n].now == NULL then n else FirstNull(slots, n + 1)
  }

  /** The assertion at the head of `consistency_check`. */
  predicate ScanStartsInside(b: Block)
    requires Shaped(b)
  {
    b.nelem.now == 0 || b.slots[b.nelem.now - 1].now != NULL
  }

  /** What the check makes of a block: only the counter changes, and only if it was behind. */
  function Checked(b: Block): Block
    requires Shaped(b)
  {
    var n := FirstNull(b.slots, b.nelem.now);
    if n == b.nelem.now then b else WithCount(b, Durable(n))
  }

  /** For any block whose non-null slots are a prefix of length len and whose counter is not
      beyond it, however far behind: the assertion holds, the counter becomes len, no slot
      changes, and a second check changes nothing. */
  lemma {:induction false} CheckRepairsAnyLag(b: Block, len: nat)
    requires Shaped(b) && b.nelem.now <= len <= b.cap
    requires forall i | 0 <= i < b.cap :: b.slots[i].now != NULL <==> i < len
    ensures ScanStartsInside(b)
    ensures Checked(b).nelem.now == len && Checked(b).slots == b.slots && Checked(b).cap == b.cap
    ensures Checked(Checked(b)) == Checked(b)
  {
    FirstNullIsPrefix(b.slots, b.nelem.now, len);
    FirstNullIsPrefix(b.slots, len, len);
  }

  lemma {:induction false} FirstNullIsPrefix(slots: seq<Word>, n: nat, len: nat)
    requires n <= len <= |slots|
    requires forall i | 0 <= i < |slots| :: slots[i].now != NULL <==> i < len
    ensures FirstNull(slots, n) == len
  {
    var r := FirstNull(slots, n);
    assert r < |slots| ==> slots[r].now == NULL;
    assert len < |slots| ==> slots[len].now == NULL;
  }

  /** The other half: over a prefix of length len, the assertion fails exactly when the counter
      is beyond the prefix. */
  lemma {:induction false} CheckFailsBeyondPrefix(b: Block, len: nat)
    requires Shaped(b) && len <= b.cap
    requires forall i | 0 <= i < b.cap :: b.slots[i].now != NULL <==> i < len
    ensures ScanStartsInside(b) <==> b.nelem.now <= len
  {
  }

  ghost function Repaired(b: Block, kids: seq<Oid>): Block
    requires b.VectorBlock?
  {
    WithCount(b, Durable(|kids|))
  }

  lemma {:induction false} CheckAtRest(b: Block, kids: seq<Oid>)
    requires VecOk(b, kids)
    ensures Shaped(b) && ScanStartsInside(b) && Checked(b) == Repaired(b, kids)
    ensures VecOk(Repaired(b, kids), kids)
    ensures FirstNull(b.slots, b.nelem.now) == |kids|
  {
    CheckRepairsAnyLag(b, |kids|);
    FirstNullIsPrefix(b.slots, b.nelem.now, |kids|);
  }

  method UpdateNelem(pool: Pool, v: Oid, nelem: nat)
    requires v in pool.heap && pool.heap[v].VectorBlock?
    modifies pool`heap, pool`trace
    ensures var h, b := old(pool.heap), old(pool.heap)[v];
            && pool.heap == h[v := WithCount(b, Durable(nelem))]
            && pool.trace == old(pool.trace) + [h[v := WithCount(b, Stored(b.nelem, nelem))], pool.heap]
    ensures Executed(old(pool.heap), old(pool.trace), pool.heap, pool.trace)
  {
    pool.StoreCount(v, nelem);
    ghost var h1, tr1 := pool.heap, pool.trace;
    pool.PersistCount(v);
    ExecutedThen(old(pool.heap), old(pool.trace), h1, tr1, pool.heap, pool.trace);
    assert pool.heap == old(pool.heap)[v := WithCount(old(pool.heap)[v], Durable(nelem))];
  }

  /** `consistency_check`; `ok` is false when its assertion fails. */
  method ConsistencyCheck(pool: Pool, v: Oid) returns (ok: bool)
    requires Valid(pool.heap, v, VECTOR_TYPE) && Shaped(pool.heap[v])
    modifies pool`heap, pool`trace
    ensures ok == ScanStartsInside(old(pool.heap)[v])
    ensures !ok ==> pool.heap == old(pool.heap)
    ensures ok ==> pool.heap == old(pool.heap)[v := Checked(old(pool.heap)[v])]
    ensures pool.heap == old(pool.heap) ==> pool.trace == old(pool.trace)
    ensures pool.heap != old(pool.heap) ==>
              var b := old(pool.heap)[v];
              pool.trace == old(pool.trace)
                + [old(pool.heap)[v := WithCount(b, Stored(b.nelem, Checked(b).nelem.now))], pool.heap]
    ensures Executed(old(pool.heap), old(pool.trace), pool.heap, pool.trace)
  {
    hide OneStep;
    var b := Get(pool.heap, v, VECTOR_TYPE);
    if b.nelem.now != 0 && b.slots[b.nelem.now - 1].now == NULL {
      return false;
    }
    var updated := false;
    var n := b.nelem.now;
    while n < b.cap && b.slots[n].now != NULL
      invariant b.nelem.now <= n <= b.cap
      invariant FirstNull(b.slots, n) == FirstNull(b.slots, b.nelem.now)
      invariant updated <==> n != b.nelem.now
    {
      updated := true;
      n := n + 1;
    }
    if updated {
      UpdateNelem(pool, v, n);
      assert pool.heap[v].nelem.now != old(pool.heap)[v].nelem.now;
    } else {
      assert pool.heap == pool.heap[v := b];
    }
    ok := true;
  }

  // ----- PersistentVectorData -----

  /** A freshly constructed block: `kids`, then null slots. */
  ghost function BlockOf(kids: seq<Oid>, cap: nat): Block
    requires |kids| <= cap
  {
    VectorBlock(cap, Durable(|kids|), seq(cap, i => SlotOf(kids, i)))
  }

  ghost function SlotOf(kids: seq<Oid>, i: int): Word {
    if 0 <= i < |kids| then Durable(kids[i]) else Durable(NULL)
  }

  /** The sizing constructor. */
  method NewData(maxSize: nat) returns (b: Block)
    ensures b == BlockOf([], maxSize) && ConstructionDurable(b)
  {
    var elements := new Word[maxSize](_ => Durable(NULL));
    for i := 0 to maxSize
      invariant forall j | 0 <= j < i :: elements[j] == Durable(NULL)
    {
      elements[i] := Durable(NULL);
    }
    b := VectorBlock(maxSize, Durable(0), elements[..]);
    assert b.slots == BlockOf([], maxSize).slots;
  }

  /** The copying constructor. Reading the source's size repairs the source first. */
  method CopyData(pool: Pool, source: Oid, maxSize: nat, ghost kids: seq<Oid>)
    returns (b: Block, ghost copied: nat)
    requires Valid(pool.heap, source, VECTOR_TYPE) && VecOk(pool.heap[source], kids)
    requires maxSize > |kids|
    modifies pool`heap, pool`trace
    ensures b == BlockOf(kids, maxSize) && ConstructionDurable(b) && copied == |kids|
    ensures RepairOnly(old(pool.heap), old(pool.trace), pool.heap, pool.trace, source, kids)
  {
    hide Executed, DataStep;
    var n := DataSize(pool, source, kids);
    var elements := new Word[maxSize](_ => Durable(NULL));
    var from := Get(pool.heap, source, VECTOR_TYPE);
    copied := 0;
    for i := 0 to n
      modifies elements
      invariant copied == i && forall j | 0 <= j < i :: elements[j] == Durable(kids[j])
    {
      elements[i] := Durable(from.slots[i].now);
      copied := copied + 1;
    }
    for i := n to maxSize
      modifies elements
      invariant forall j | 0 <= j < n :: elements[j] == Durable(kids[j])
      invariant forall j | n <= j < i :: elements[j] == Durable(NULL)
    {
      elements[i] := Durable(NULL);
    }
    b := VectorBlock(maxSize, Durable(n), elements[..]);
    var want := BlockOf(kids, maxSize).slots;
    forall j | 0 <= j < maxSize ensures b.slots[j] == want[j] {
      assert b.slots[j] == elements[j];
      assert elements[j] == if j < n then Durable(kids[j]) else Durable(NULL);
    }
    assert b.slots == want;
  }

  /** All that a call has done is to bring the counter of block v up to date. */
  ghost predicate RepairOnly(h0: Heap, tr0: seq<Heap>, h: Heap, tr: seq<Heap>, v: Oid, kids: seq<Oid>)
    requires v in h0 && VecOk(h0[v], kids)
  {
    && h == h0[v := Repaired(h0[v], kids)]
    && tr0 <= tr && Executed(h0, tr0, h, tr)
    && (forall k | |tr0| <= k < |tr| :: DataStep(h0, tr[k], v, kids, {}))
    && (h0[v].nelem.now == |kids| ==> h == h0 && tr == tr0)
  }

  /** The check on a block at rest: its assertion holds. */
  method CheckOk(pool: Pool, v: Oid, ghost kids: seq<Oid>)
    requires Valid(pool.heap, v, VECTOR_TYPE) && VecOk(pool.heap[v], kids)
    modifies pool`heap, pool`trace
    ensures RepairOnly(old(pool.heap), old(pool.trace), pool.heap, pool.trace, v, kids)
    ensures Valid(pool.heap, v, VECTOR_TYPE) && VecOk(pool.heap[v], kids)
    ensures pool.heap[v].nelem.now == |kids| && pool.heap[v].cap == old(pool.heap)[v].cap
  {
    hide OneStep;
    CheckAtRest(pool.heap[v], kids);
    var ok := ConsistencyCheck(pool, v);
  }

  /** `size()` of the data block: the check, then the counter. */
  method DataSize(pool: Pool, v: Oid, ghost kids: seq<Oid>) returns (n: nat)
    requires Valid(pool.heap, v, VECTOR_TYPE) && VecOk(pool.heap[v], kids)
    modifies pool`heap, pool`trace
    ensures n == |kids|
    ensures RepairOnly(old(pool.heap), old(pool.trace), pool.heap, pool.trace, v, kids)
  {
    CheckOk(pool, v, kids);
    n := Get(pool.heap, v, VECTOR_TYPE).nelem.now;
  }

  /** `full()` of the data block. */
  method DataFull(pool: Pool, v: Oid, ghost kids: seq<Oid>) returns (full: bool)
    requires Valid(pool.heap, v, VECTOR_TYPE) && VecOk(pool.heap[v], kids)
    modifies pool`heap, pool`trace
    ensures full <==> |kids| == old(pool.heap)[v].cap
    ensures RepairOnly(old(pool.heap), old(pool.trace), pool.heap, pool.trace, v, kids)
  {
    CheckOk(pool, v, kids);
    var b := Get(pool.heap, v, VECTOR_TYPE);
    full := b.nelem.now == b.cap;
  }

  ghost function Appended(b: Block, kids: seq<Oid>, x: Oid): Block
    requires b.VectorBlock? && |kids| < |b.slots|
  {
    VectorBlock(b.cap, Durable(|kids| + 1), b.slots[|kids| := Durable(x)])
  }

  ghost function SlotSet(b: Block, kids: seq<Oid>, slot: Word, count: Word): Block
    requires b.VectorBlock? && |kids| < |b.slots|
  {
    VectorBlock(b.cap, count, b.slots[|kids| := slot])
  }

  /** The states between the repair and the end of a push. */
  lemma {:induction false} PushStates(b: Block, kids: seq<Oid>, x: Oid)
    requires VecOk(b, kids) && |kids| < b.cap && x != NULL
    ensures VecMid(SlotSet(b, kids, Stored(Durable(NULL), x), Durable(|kids|)), kids, {x})
    ensures VecMid(SlotSet(b, kids, Durable(x), Durable(|kids|)), kids, {x})
    ensures VecMid(SlotSet(b, kids, Durable(x), Stored(Durable(|kids|), |kids| + 1)), kids, {x})
    ensures VecMid(Appended(b, kids, x), kids, {x})
    ensures VecOk(Appended(b, kids, x), kids + [x])
  {
  }

  /** The counter follows the slot. */
  method Count(pool: Pool, v: Oid, ghost h0: Heap, ghost kids: seq<Oid>, ghost x: Oid)
    requires v in h0 && VecOk(h0[v], kids) && |kids| < h0[v].cap && x != NULL
    requires v in pool.heap && pool.heap[v] == SlotSet(h0[v], kids, Durable(x), Durable(|kids|))
    modifies pool`heap, pool`trace
    ensures var h := old(pool.heap);
            && pool.trace == old(pool.trace)
                 + [h[v := SlotSet(h0[v], kids, Durable(x), Stored(Durable(|kids|), |kids| + 1))], pool.heap]
            && pool.heap == h[v := Appended(h0[v], kids, x)]
    ensures Executed(old(pool.heap), old(pool.trace), pool.heap, pool.trace)
  {
    UpdateNelem(pool, v, pool.heap[v].nelem.now + 1);
  }

  /** The check before it changes nothing but the same block. */
  lemma {:induction false} DataAfterCheck(h0: Heap, h1: Heap, h: Heap, v: Oid, kids: seq<Oid>, xs: set<Oid>)
    requires v in h0 && v in h1 && h1 == h0[v := h1[v]] && DataStep(h1, h, v, kids, xs)
    ensures DataStep(h0, h, v, kids, xs)
  {
  }

  /** The part of `push_back_elem` after the check. */
  method StoreLast(pool: Pool, v: Oid, elem: Oid, ghost kids: seq<Oid>)
    requires Valid(pool.heap, v, VECTOR_TYPE) && VecOk(pool.heap[v], kids) && elem != NULL
    requires |kids| < pool.heap[v].cap && pool.heap[v].nelem.now == |kids|
    modifies pool`heap, pool`trace
    ensures pool.heap == old(pool.heap)[v := Appended(old(pool.heap)[v], kids, elem)]
    ensures VecOk(pool.heap[v], kids + [elem])
    ensures forall k | |old(pool.trace)| <= k < |pool.trace| :: DataStep(old(pool.heap), pool.trace[k], v, kids, {elem})
    ensures old(pool.trace) <= pool.trace && Executed(old(pool.heap), old(pool.trace), pool.heap, pool.trace)
  {
    hide Executed;
    ghost var h0, tr0 := pool.heap, pool.trace;
    PushStates(h0[v], kids, elem);
    ghost var inFlight := h0[v := SlotSet(h0[v], kids, Stored(Durable(NULL), elem), Durable(|kids|))];
    assert SetPtr(h0, Slot(v, |kids|), Stored(Durable(NULL), elem)) == inFlight;
    SetPersist(pool, Slot(v, Get(pool.heap, v, VECTOR_TYPE).nelem.now), elem);
    assert pool.heap == h0[v := SlotSet(h0[v], kids, Durable(elem), Durable(|kids|))];
    assert pool.trace == tr0 + [inFlight, pool.heap];
    ghost var h1, tr1 := pool.heap, pool.trace;
    Count(pool, v, h0, kids, elem);
    ExecutedThen(h0, tr0, h1, tr1, pool.heap, pool.trace);
    assert pool.heap == h0[v := Appended(h0[v], kids, elem)];
  }

  /** `push_back_elem` of the data block: slot, persist, counter, persist. */
  method DataPushBackElem(pool: Pool, v: Oid, elem: Oid, ghost kids: seq<Oid>) returns (st: Outcome)
    requires Valid(pool.heap, v, VECTOR_TYPE) && VecOk(pool.heap[v], kids) && elem != NULL
    modifies pool`heap, pool`trace
    ensures st == if |kids| == old(pool.heap)[v].cap then OutOfRange else Done
    ensures st == OutOfRange ==> RepairOnly(old(pool.heap), old(pool.trace), pool.heap, pool.trace, v, kids)
    ensures st == Done ==> pool.heap == old(pool.heap)[v := Appended(old(pool.heap)[v], kids, elem)]
    ensures st == Done ==> VecOk(pool.heap[v], kids + [elem])
    ensures forall k | |old(pool.trace)| <= k < |pool.trace| :: DataStep(old(pool.heap), pool.trace[k], v, kids, {elem})
    ensures old(pool.trace) <= pool.trace && Executed(old(pool.heap), old(pool.trace), pool.heap, pool.trace)
    ensures SameLive(old(pool.heap), old(pool.trace), pool.trace)
  {
    hide Executed;
    CheckOk(pool, v, kids);
    var b := Get(pool.heap, v, VECTOR_TYPE);
    if b.nelem.now == b.cap {
      return OutOfRange;
    }
    ghost var h0, h1, tr1 := old(pool.heap), pool.heap, pool.trace;
    StoreLast(pool, v, elem, kids);
    ExecutedThen(h0, old(pool.trace), h1, tr1, pool.heap, pool.trace);
    forall k | |tr1| <= k < |pool.trace| ensures DataStep(h0, pool.trace[k], v, kids, {elem}) {
      DataAfterCheck(h0, h1, pool.trace[k], v, kids, {elem});
    }
    st := Done;
  }

  /** Block v has changed since h0, and the new element x stands beside it. */
  ghost predicate CtrStep(h0: Heap, h: Heap, v: Oid, kids: seq<Oid>, x: Oid, elem: Block) {
    v in h0 && v in h && x !in h0 && h == h0[v := h[v]][x := elem] && VecMid(h[v], kids, {x})
  }

  lemma {:induction false} CtrAfterCheck(h0: Heap, h1: Heap, h: Heap, v: Oid, kids: seq<Oid>, x: Oid, elem: Block)
    requires v in h0 && v in h1 && h1 == h0[v := h1[v]] && CtrStep(h1, h, v, kids, x, elem)
    ensures CtrStep(h0, h, v, kids, x, elem)
  {
  }

  /** The part of `push_back` after the check. */
  method AllocateLast(pool: Pool, v: Oid, elem: Block, ghost kids: seq<Oid>) returns (st: Outcome, x: Oid)
    requires Valid(pool.heap, v, VECTOR_TYPE) && VecOk(pool.heap[v], kids) && ConstructionDurable(elem)
    requires |kids| < pool.heap[v].cap && pool.heap[v].nelem.now == |kids|
    modifies pool
    ensures st in {Done, AllocationFailed}
    ensures st != Done ==> pool.heap == old(pool.heap) && pool.trace == old(pool.trace)
    ensures st == Done ==> x != NULL && x !in old(pool.heap)
    ensures st == Done ==> pool.heap == old(pool.heap)[v := Appended(old(pool.heap)[v], kids, x)][x := elem]
    ensures st == Done ==> VecOk(pool.heap[v], kids + [x])
    ensures forall k | |old(pool.trace)| <= k < |pool.trace| :: CtrStep(old(pool.heap), pool.trace[k], v, kids, x, elem)
    ensures old(pool.trace) <= pool.trace && Executed(old(pool.heap), old(pool.trace), pool.heap, pool.trace)
    ensures pool.refusals == old(pool.refusals) + Refusal(st)
  {
    ghost var h0, tr0 := pool.heap, pool.trace;
    var stored := Get(pool.heap, v, VECTOR_TYPE).nelem.now;
    var ok;
    ok, x := AllocateCtr(pool, Slot(v, stored), elem);
    if !ok {
      return AllocationFailed, NULL;
    }
    PushStates(h0[v], kids, x);
    assert pool.heap[v] == SlotSet(h0[v], kids, Durable(x), Durable(|kids|));
    assert CtrStep(h0, pool.heap, v, kids, x, elem);
    ghost var counting := pool.heap[v := SlotSet(h0[v], kids, Durable(x), Stored(Durable(|kids|), |kids| + 1))];
    assert counting == h0[v := counting[v]][x := elem];
    ghost var h1, tr1 := pool.heap, pool.trace;
    Count(pool, v, h0, kids, x);
    ExecutedThen(h0, tr0, h1, tr1, pool.heap, pool.trace);
    assert pool.heap == h0[v := Appended(h0[v], kids, x)][x := elem];
    st := Done;
  }

  /** `push_back` of the data block: the element is allocated straight into its slot. */
  method DataPushBack(pool: Pool, v: Oid, elem: Block, ghost kids: seq<Oid>) returns (st: Outcome, x: Oid)
    requires Valid(pool.heap, v, VECTOR_TYPE) && VecOk(pool.heap[v], kids) && ConstructionDurable(elem)
    modifies pool
    ensures st == OutOfRange <==> |kids| == old(pool.heap)[v].cap
    ensures st in {Done, OutOfRange, AllocationFailed}
    ensures st != Done ==> RepairOnly(old(pool.heap), old(pool.trace), pool.heap, pool.trace, v, kids)
    ensures st == Done ==> x != NULL && x !in old(pool.heap)
    ensures st == Done ==> pool.heap == old(pool.heap)[v := Appended(old(pool.heap)[v], kids, x)][x := elem]
    ensures st == Done ==> VecOk(pool.heap[v], kids + [x])
    ensures forall k | |old(pool.trace)| <= k < |pool.trace| ::
              || DataStep(old(pool.heap), pool.trace[k], v, kids, {})
              || CtrStep(old(pool.heap), pool.trace[k], v, kids, x, elem)
    ensures old(pool.trace) <= pool.trace && Executed(old(pool.heap), old(pool.trace), pool.heap, pool.trace)
    ensures pool.refusals == old(pool.refusals) + Refusal(st)
  {
    CheckOk(pool, v, kids);
    var b := Get(pool.heap, v, VECTOR_TYPE);
    if b.nelem.now == b.cap {
      return OutOfRange, NULL;
    }
    ghost var h0, h1, tr1 := old(pool.heap), pool.heap, pool.trace;
    st, x := AllocateLast(pool, v, elem, kids);
    ExecutedThen(h0, old(pool.trace), h1, tr1, pool.heap, pool.trace);
    forall k | |tr1| <= k < |pool.trace| ensures CtrStep(h0, pool.trace[k], v, kids, x, elem) {
      CtrAfterCheck(h0, h1, pool.trace[k], v, kids, x, elem);
    }
  }

  // ----- PersistentVector -----

  /** All that a reading call has done is to bring the vector's counter up to date. */
  ghost predicate ReadOnly(h0: Heap, tr0: seq<Heap>, h: Heap, tr: seq<Heap>, owner: Oid, kids: seq<Oid>)
    requires VecRepr(h0, owner, kids)
  {
    if DataOf(h0, owner) == NULL then h == h0 && tr == tr0
    else RepairOnly(h0, tr0, h, tr, DataOf(h0, owner), kids)
  }

  lemma {:induction false} ReadOnlySteps(h0: Heap, tr0: seq<Heap>, h: Heap, tr: seq<Heap>, owner: Oid, kids: seq<Oid>)
    requires VecRepr(h0, owner, kids) && ReadOnly(h0, tr0, h, tr, owner, kids)
    ensures VecRepr(h, owner, kids) && h.Keys == h0.Keys && h[owner] == h0[owner]
    ensures DataOf(h, owner) != NULL ==> h[DataOf(h, owner)].nelem.now == |kids|
    ensures Executed(h0, tr0, h, tr) && VecStep(h0, h, owner, kids, {})
    ensures forall k | |tr0| <= k < |tr| :: VecStep(h0, tr[k], owner, kids, {})
    ensures SameLive(h0, tr0, tr)
  {
    AtRestIsStep(h0, owner, kids, {});
    var v := DataOf(h0, owner);
    if v != NULL {
      CheckAtRest(h0[v], kids);
      forall k | |tr0| <= k < |tr| ensures VecStep(h0, tr[k], owner, kids, {}) {
        StepThenData(h0, h0, tr[k], owner, kids, {});
      }
    }
  }

  /** A step of a call that followed a reading one is a step of both. */
  lemma {:induction false} AfterRead(h0: Heap, tr0: seq<Heap>, h1: Heap, tr1: seq<Heap>, h: Heap, owner: Oid,
        kids: seq<Oid>, xs: set<Oid>)
    requires VecRepr(h0, owner, kids) && ReadOnly(h0, tr0, h1, tr1, owner, kids)
    requires owner in h1 && HasPtr(h1[owner]) && VecStep(h1, h, owner, kids, xs)
    ensures VecStep(h0, h, owner, kids, xs)
  {
    if DataOf(h0, owner) != NULL {
      DataThenStep(h0, h1, h, owner, kids, xs);
    }
  }

  method Size(pool: Pool, owner: Oid, ghost kids: seq<Oid>) returns (n: nat)
    requires VecRepr(pool.heap, owner, kids)
    modifies pool`heap, pool`trace
    ensures n == |kids|
    ensures ReadOnly(old(pool.heap), old(pool.trace), pool.heap, pool.trace, owner, kids)
  {
    if DataOf(pool.heap, owner) == NULL {
      n := 0;
    } else {
      n := DataSize(pool, DataOf(pool.heap, owner), kids);
    }
  }

  function AllocatedSize(h: Heap, owner: Oid): nat
    requires owner in h && HasPtr(h[owner])
    requires DataOf(h, owner) == NULL || Valid(h, DataOf(h, owner), VECTOR_TYPE)
  {
    if DataOf(h, owner) == NULL then 0 else Get(h, DataOf(h, owner), VECTOR_TYPE).cap
  }

  /** `operator[]`: no check of the counter. */
  function At(h: Heap, owner: Oid, i: nat, ghost kids: seq<Oid>): (x: Oid)
    requires VecRepr(h, owner, kids) && i < |kids|
    ensures x == kids[i] && x != NULL
  {
    Get(h, DataOf(h, owner), VECTOR_TYPE).slots[i].now
  }

  /** Publication of a block that holds the same elements, then release of the old one. */
  lemma {:induction false} ReplaceSteps(h0: Heap, owner: Oid, kids: seq<Oid>, id: Oid, b: Block)
    requires VecRepr(h0, owner, kids) && DataOf(h0, owner) != NULL
    requires id != NULL && id !in h0 && VecOk(b, kids)
    ensures var mid := Published(h0, Field(owner), id, b);
            && VecStep(h0, mid, owner, kids, {})
            && VecStep(h0, mid - {DataOf(h0, owner)}, owner, kids, {})
            && VecRepr(mid - {DataOf(h0, owner)}, owner, kids)
  {
    assert DataOf(h0, owner) != owner;
  }

  lemma {:induction false} BlockOfIsOk(kids: seq<Oid>, cap: nat)
    requires |kids| <= cap && 1 <= cap && NULL !in kids
    ensures VecOk(BlockOf(kids, cap), kids)
  {
    forall i | 0 <= i < |kids| ensures kids[i] != NULL {
      assert kids[i] in kids;
    }
    var b := BlockOf(kids, cap);
    forall i | |kids| <= i < cap ensures b.slots[i] == Durable(NULL) {
      assert b.slots[i] == SlotOf(kids, i);
    }
  }

  lemma {:induction false} FirstBlockStep(h0: Heap, owner: Oid, id: Oid, b: Block)
    requires VecRepr(h0, owner, []) && DataOf(h0, owner) == NULL && id != NULL && id !in h0 && VecOk(b, [])
    ensures var h := Published(h0, Field(owner), id, b);
            VecStep(h0, h, owner, [], {}) && VecRepr(h, owner, []) && h.Keys == Swapped(h0.Keys, NULL, id)
  {
  }

  /** `resize`. A null vector may be given no slots at all; a block is only ever replaced by a
      larger one, since the copying constructor asserts it. */
  method Resize(pool: Pool, owner: Oid, newSize: nat, ghost kids: seq<Oid>) returns (st: Outcome, ghost copied: nat)
    requires VecRepr(pool.heap, owner, kids)
    requires DataOf(pool.heap, owner) == NULL || newSize > |kids|
    modifies pool
    ensures st in {Done, AllocationFailed}
    ensures newSize >= 1 ==>
              && VecRepr(pool.heap, owner, kids) && VecStep(old(pool.heap), pool.heap, owner, kids, {})
              && forall k | |old(pool.trace)| <= k < |pool.trace| ::
                   VecStep(old(pool.heap), pool.trace[k], owner, kids, {})
    ensures newSize == 0 ==> pool.trace == old(pool.trace) + if st == Done then [pool.heap] else []
    ensures st == Done ==>
              && owner in pool.heap && HasPtr(pool.heap[owner])
              && var v := DataOf(pool.heap, owner);
              && v != NULL && v !in old(pool.heap) && v in pool.heap && pool.heap[v] == BlockOf(kids, newSize)
              && pool.heap.Keys == Swapped(old(pool.heap).Keys, DataOf(old(pool.heap), owner), v)
              && Frame(old(pool.heap), pool.heap, {owner} + Named(DataOf(old(pool.heap), owner)))
              && copied == if DataOf(old(pool.heap), owner) == NULL then 0 else |kids|
    ensures st != Done ==> ReadOnly(old(pool.heap), old(pool.trace), pool.heap, pool.trace, owner, kids)
    ensures old(pool.trace) <= pool.trace && Executed(old(pool.heap), old(pool.trace), pool.heap, pool.trace)
    ensures pool.refusals == old(pool.refusals) + Refusal(st)
  {
    hide VecStep, BlockOf, Executed;
    ghost var h0, tr0 := pool.heap, pool.trace;
    NothingExecuted(h0, tr0);
    var v := DataOf(pool.heap, owner);
    AtRestIsStep(h0, owner, kids, {});
    if v == NULL {
      var b := NewData(newSize);
      var ok, id := AllocateCtr(pool, Field(owner), b);
      if ok && newSize >= 1 {
        BlockOfIsOk([], newSize);
        FirstBlockStep(h0, owner, id, b);
      }
      st, copied := if ok then Done else AllocationFailed, 0;
    } else {
      var b;
      b, copied := CopyData(pool, v, newSize, kids);
      ReadOnlySteps(h0, tr0, pool.heap, pool.trace, owner, kids);
      ghost var h1, tr1 := pool.heap, pool.trace;
      var ok, id := ReplaceCtr(pool, Field(owner), b);
      ExecutedThen(h0, tr0, h1, tr1, pool.heap, pool.trace);
      if ok {
        BlockOfIsOk(kids, newSize);
        ReplaceSteps(h1, owner, kids, id, b);
        DataThenStep(h0, h1, Published(h1, Field(owner), id, b), owner, kids, {});
        DataThenStep(h0, h1, pool.heap, owner, kids, {});
      }
      st := if ok then Done else AllocationFailed;
    }
  }

  /** Room is made, then the data block changes. */
  lemma {:induction false} RoomThenData(h0: Heap, tr0: seq<Heap>, h1: Heap, tr1: seq<Heap>, tr: seq<Heap>,
        owner: Oid, kids: seq<Oid>, xs: set<Oid>)
    requires VecRepr(h0, owner, kids) && VecStep(h0, h1, owner, kids, {}) && VecRepr(h1, owner, kids)
    requires DataOf(h1, owner) != NULL && tr1 <= tr
    requires forall k | |tr0| <= k < |tr1| :: VecStep(h0, tr1[k], owner, kids, {})
    requires forall k | |tr1| <= k < |tr| :: DataStep(h1, tr[k], DataOf(h1, owner), kids, xs)
    ensures forall k | |tr0| <= k < |tr| :: VecStep(h0, tr[k], owner, kids, xs)
  {
    forall k | |tr0| <= k < |tr| ensures VecStep(h0, tr[k], owner, kids, xs) {
      if k < |tr1| {
        MoreInFlight(h0, tr[k], owner, kids, xs);
      } else {
        StepThenData(h0, h1, tr[k], owner, kids, xs);
      }
    }
  }

  /** A call that fails leaves no trace of its element, not even in between. */
  ghost function InFlight(st: Outcome, x: Oid): set<Oid> { if st == Done then {x} else {} }

  method PushBackElem(pool: Pool, owner: Oid, elem: Oid, ghost kids: seq<Oid>)
    returns (st: Outcome, ghost copied: nat)
    requires VecRepr(pool.heap, owner, kids) && elem != NULL
    modifies pool
    ensures st in {Done, AllocationFailed}
    ensures forall k | |old(pool.trace)| <= k < |pool.trace| ::
              VecStep(old(pool.heap), pool.trace[k], owner, kids, InFlight(st, elem))
    ensures VecStep(old(pool.heap), pool.heap, owner, kids, InFlight(st, elem))
    ensures st == Done ==>
              && VecRepr(pool.heap, owner, kids + [elem])
              && var cap := AllocatedSize(old(pool.heap), owner);
              && AllocatedSize(pool.heap, owner) == (if cap == 0 then 1 else if |kids| == cap then 2 * cap else cap)
              && copied == (if |kids| == cap then cap else 0)
              && pool.heap.Keys == Swapped(old(pool.heap).Keys, DataOf(old(pool.heap), owner), DataOf(pool.heap, owner))
    ensures st != Done ==> ReadOnly(old(pool.heap), old(pool.trace), pool.heap, pool.trace, owner, kids)
    ensures old(pool.trace) <= pool.trace && Executed(old(pool.heap), old(pool.trace), pool.heap, pool.trace)
    ensures pool.refusals == old(pool.refusals) + Refusal(st)
    ensures |kids| < AllocatedSize(old(pool.heap), owner) ==>
              st == Done && DataOf(pool.heap, owner) == DataOf(old(pool.heap), owner)
              && SameLive(old(pool.heap), old(pool.trace), pool.trace)
  {
    hide Executed;
    ghost var h0, tr0 := pool.heap, pool.trace;
    st, copied := MakeRoom(pool, owner, kids);
    if st != Done {
      return;
    }
    ghost var h1, tr1 := pool.heap, pool.trace;
    st := DataPushBackElem(pool, DataOf(pool.heap, owner), elem, kids);
    ExecutedThen(h0, tr0, h1, tr1, pool.heap, pool.trace);
    if |kids| < AllocatedSize(h0, owner) {
      SameLiveThen(h0, tr0, h1, tr1, pool.trace);
    }
    RoomThenData(h0, tr0, h1, tr1, pool.trace, owner, kids, {elem});
    PushStates(h1[DataOf(h1, owner)], kids, elem);
    StepThenData(h0, h1, pool.heap, owner, kids, {elem});
  }

  /** The common first half of the two pushes: a first block of one slot, or twice the space. */
  method MakeRoom(pool: Pool, owner: Oid, ghost kids: seq<Oid>) returns (st: Outcome, ghost copied: nat)
    requires VecRepr(pool.heap, owner, kids)
    modifies pool
    ensures st in {Done, AllocationFailed} && old(pool.trace) <= pool.trace
    ensures VecRepr(pool.heap, owner, kids)
    ensures forall k | |old(pool.trace)| <= k < |pool.trace| :: VecStep(old(pool.heap), pool.trace[k], owner, kids, {})
    ensures VecStep(old(pool.heap), pool.heap, owner, kids, {})
    ensures st == Done ==>
              && DataOf(pool.heap, owner) != NULL && |kids| < AllocatedSize(pool.heap, owner)
              && var cap := AllocatedSize(old(pool.heap), owner);
              && AllocatedSize(pool.heap, owner) == (if cap == 0 then 1 else if |kids| == cap then 2 * cap else cap)
              && copied == (if |kids| == cap then cap else 0)
              && pool.heap.Keys == Swapped(old(pool.heap).Keys, DataOf(old(pool.heap), owner), DataOf(pool.heap, owner))
    ensures st != Done ==> ReadOnly(old(pool.heap), old(pool.trace), pool.heap, pool.trace, owner, kids)
    ensures Executed(old(pool.heap), old(pool.trace), pool.heap, pool.trace)
    ensures pool.refusals == old(pool.refusals) + Refusal(st)
    ensures |kids| < AllocatedSize(old(pool.heap), owner) ==>
              st == Done && DataOf(pool.heap, owner) == DataOf(old(pool.heap), owner)
              && SameLive(old(pool.heap), old(pool.trace), pool.trace)
  {
    hide Executed;
    ghost var h0, tr0 := pool.heap, pool.trace;
    NothingExecuted(h0, tr0);
    st, copied := Done, 0;
    if DataOf(pool.heap, owner) == NULL {
      st, copied := Resize(pool, owner, 1, kids);
      if st != Done {
        return;
      }
    } else {
      AtRestIsStep(h0, owner, kids, {});
    }
    ghost var h1, tr1 := pool.heap, pool.trace;
    var full := DataFull(pool, DataOf(pool.heap, owner), kids);
    ReadOnlySteps(h1, tr1, pool.heap, pool.trace, owner, kids);
    ExecutedThen(h0, tr0, h1, tr1, pool.heap, pool.trace);
    if full {
      ghost var h2, tr2 := pool.heap, pool.trace;
      var n := Size(pool, owner, kids);
      st, copied := Resize(pool, owner, n * 2, kids);
      ExecutedThen(h0, tr0, h2, tr2, pool.heap, pool.trace);
      forall k | |tr2| <= k < |pool.trace| ensures VecStep(h0, pool.trace[k], owner, kids, {}) {
        DataThenStep(h0, h2, pool.trace[k], owner, kids, {});
      }
      DataThenStep(h0, h2, pool.heap, owner, kids, {});
    }
  }

  /** h1 is the vector with room made, h a state after that: a step of the whole push, in which
      the new element is never named before it is there. */
  lemma {:induction false} StepThenCtr(h0: Heap, h1: Heap, h: Heap, owner: Oid, kids: seq<Oid>, x: Oid, elem: Block)
    requires VecRepr(h0, owner, kids) && VecStep(h0, h1, owner, kids, {}) && VecRepr(h1, owner, kids)
    requires DataOf(h1, owner) != NULL && x != NULL
    requires DataStep(h1, h, DataOf(h1, owner), kids, {}) || CtrStep(h1, h, DataOf(h1, owner), kids, x, elem)
    ensures VecStep(h0, h, owner, kids, {x}) && Backed(h, owner, kids, x, elem)
  {
    if DataStep(h1, h, DataOf(h1, owner), kids, {}) {
      StepThenData(h0, h1, h, owner, kids, {});
      MoreInFlight(h0, h, owner, kids, {x});
    }
  }

  /** Appending a new object. It becomes reachable in the step that allocates it, and in no
      state passed through is it named without being there, whole. */
  method PushBackCtr(pool: Pool, owner: Oid, elem: Block, ghost kids: seq<Oid>)
    returns (st: Outcome, x: Oid, ghost copied: nat)
    requires VecRepr(pool.heap, owner, kids) && ConstructionDurable(elem)
    modifies pool
    ensures st in {Done, AllocationFailed}
    ensures forall k | |old(pool.trace)| <= k < |pool.trace| ::
              VecStep(old(pool.heap), pool.trace[k], owner, kids, InFlight(st, x))
    ensures VecStep(old(pool.heap), pool.heap, owner, kids, InFlight(st, x))
    ensures st == Done ==>
              && x != NULL && VecRepr(pool.heap, owner, kids + [x])
              && x in pool.heap && pool.heap[x] == elem && x != DataOf(pool.heap, owner)
              && (x in old(pool.heap) ==> x == DataOf(old(pool.heap), owner))
              && var cap := AllocatedSize(old(pool.heap), owner);
              && AllocatedSize(pool.heap, owner) == (if cap == 0 then 1 else if |kids| == cap then 2 * cap else cap)
              && copied == (if |kids| == cap then cap else 0)
              && pool.heap.Keys ==
                   Swapped(old(pool.heap).Keys, DataOf(old(pool.heap), owner), DataOf(pool.heap, owner)) + {x}
    ensures st == Done ==>
              forall k | |old(pool.trace)| <= k < |pool.trace| :: Backed(pool.trace[k], owner, kids, x, elem)
    ensures st != Done ==>
              && VecRepr(pool.heap, owner, kids)
              && pool.heap.Keys ==
                   old(pool.heap).Keys - Named(DataOf(old(pool.heap), owner)) + Named(DataOf(pool.heap, owner))
    ensures old(pool.trace) <= pool.trace && Executed(old(pool.heap), old(pool.trace), pool.heap, pool.trace)
    ensures pool.refusals == old(pool.refusals) + Refusal(st)
    ensures |kids| < AllocatedSize(old(pool.heap), owner) ==>
              owner in pool.heap && HasPtr(pool.heap[owner])
              && DataOf(pool.heap, owner) == DataOf(old(pool.heap), owner)
  {
    hide VecStep, VecOk, Backed, DataStep, CtrStep, RepairOnly, ConstructionDurable, Executed;
    ghost var h0, tr0 := pool.heap, pool.trace;
    x := NULL;
    st, copied := MakeRoom(pool, owner, kids);
    if st != Done {
      ReadOnlySteps(h0, tr0, pool.heap, pool.trace, owner, kids);
      return;
    }
    ghost var h1, tr1 := pool.heap, pool.trace;
    st, x := DataPushBack(pool, DataOf(pool.heap, owner), elem, kids);
    ExecutedThen(h0, tr0, h1, tr1, pool.heap, pool.trace);
    if st == Done {
      CtrPushed(h0, h1, pool.heap, owner, kids, x, elem);
      RoomThenCtr(h0, tr0, h1, tr1, pool.trace, owner, kids, x, elem);
    } else {
      RoomThenCheck(h0, tr0, h1, tr1, pool.heap, pool.trace, owner, kids);
    }
  }

  lemma {:induction false} BackedBefore(h0: Heap, h: Heap, owner: Oid, kids: seq<Oid>, x: Oid, elem: Block)
    requires owner in h0 && HasPtr(h0[owner]) && VecStep(h0, h, owner, kids, {}) && x != NULL
    ensures VecStep(h0, h, owner, kids, {x}) && Backed(h, owner, kids, x, elem)
  {
    MoreInFlight(h0, h, owner, kids, {x});
  }

  /** Room is made, then the data block takes a new object. */
  lemma {:induction false} RoomThenCtr(h0: Heap, tr0: seq<Heap>, h1: Heap, tr1: seq<Heap>, tr: seq<Heap>,
        owner: Oid, kids: seq<Oid>, x: Oid, elem: Block)
    requires VecRepr(h0, owner, kids) && VecStep(h0, h1, owner, kids, {}) && VecRepr(h1, owner, kids)
    requires DataOf(h1, owner) != NULL && x != NULL && tr1 <= tr
    requires forall k | |tr0| <= k < |tr1| :: VecStep(h0, tr1[k], owner, kids, {})
    requires forall k | |tr1| <= k < |tr| ::
               DataStep(h1, tr[k], DataOf(h1, owner), kids, {})
               || CtrStep(h1, tr[k], DataOf(h1, owner), kids, x, elem)
    ensures forall k | |tr0| <= k < |tr| ::
              VecStep(h0, tr[k], owner, kids, {x}) && Backed(tr[k], owner, kids, x, elem)
  {
    forall k | |tr0| <= k < |tr|
      ensures VecStep(h0, tr[k], owner, kids, {x}) && Backed(tr[k], owner, kids, x, elem)
    {
      if k < |tr1| {
        BackedBefore(h0, tr[k], owner, kids, x, elem);
      } else {
        StepThenCtr(h0, h1, tr[k], owner, kids, x, elem);
      }
    }
  }

  /** Room is made, and then nothing but a check. */
  lemma {:induction false} RoomThenCheck(h0: Heap, tr0: seq<Heap>, h1: Heap, tr1: seq<Heap>, h: Heap, tr: seq<Heap>,
        owner: Oid, kids: seq<Oid>)
    requires VecRepr(h0, owner, kids) && VecStep(h0, h1, owner, kids, {}) && VecRepr(h1, owner, kids)
    requires DataOf(h1, owner) != NULL && RepairOnly(h1, tr1, h, tr, DataOf(h1, owner), kids)
    requires forall k | |tr0| <= k < |tr1| :: VecStep(h0, tr1[k], owner, kids, {})
    ensures forall k | |tr0| <= k < |tr| :: VecStep(h0, tr[k], owner, kids, {})
    ensures VecStep(h0, h, owner, kids, {}) && VecRepr(h, owner, kids)
    ensures h.Keys == h1.Keys && h[owner] == h1[owner]
  {
    CheckAtRest(h1[DataOf(h1, owner)], kids);
    RoomThenData(h0, tr0, h1, tr1, tr, owner, kids, {});
    StepThenData(h0, h1, h, owner, kids, {});
  }

  /** The end of the push, from the vector h1 with room made. */
  lemma {:induction false} CtrPushed(h0: Heap, h1: Heap, h: Heap, owner: Oid, kids: seq<Oid>, x: Oid, elem: Block)
    requires VecRepr(h0, owner, kids) && VecStep(h0, h1, owner, kids, {}) && VecRepr(h1, owner, kids)
    requires DataOf(h1, owner) != NULL && x != NULL && x !in h1 && |kids| < h1[DataOf(h1, owner)].cap
    requires h == h1[DataOf(h1, owner) := Appended(h1[DataOf(h1, owner)], kids, x)][x := elem]
    ensures VecStep(h0, h, owner, kids, {x})
    ensures VecRepr(h, owner, kids + [x])
  {
    PushStates(h1[DataOf(h1, owner)], kids, x);
    assert CtrStep(h1, h, DataOf(h1, owner), kids, x, elem);
    StepThenCtr(h0, h1, h, owner, kids, x, elem);
  }
}
