/** PersistentPtr: checked dereference, atomic allocation and atomic replacement. */
module PersistentPtr {
  import opened Pmem

  /** How a call ends: normally, or with the exception it throws. */
  datatype Outcome = Done | AssertionFailed | LeafExists | AllocationFailed | OutOfRange | UserError

  /** A call that ends in AllocationFailed has met exactly one refused allocation; any other, none. */
  function Refusal(st: Outcome): (n: nat)
    ensures n > 0 <==> st == AllocationFailed
  {
    if st == AllocationFailed then 1 else 0
  }

  const NODE_TYPE := 1
  const VECTOR_TYPE := 2
  const BUFFER_TYPE := 3

  /** The id belongs to a live block whose recorded type is the one expected. */
  predicate Valid(h: Heap, id: Oid, typeId: nat) {
    id in h && TypeNum(h[id]) == typeId
  }

  /** `get()`: its assertion is the precondition, so every use below carries the proof that
      the assertion cannot fire. */
  function Get(h: Heap, id: Oid, typeId: nat): (b: Block)
    requires Valid(h, id, typeId)
    ensures TypeNum(b) == typeId
  {
    h[id]
  }

  /** The block a pointer names, if it names one. */
  ghost function Named(id: Oid): set<Oid> { if id == NULL then {} else {id} }

  /** The live blocks after block v0 (if any) has given way to block v. */
  ghost function Swapped(live: set<Oid>, v0: Oid, v: Oid): set<Oid> {
    live - Named(v0) + {v}
  }

  /** The block behind the pointer member of an object, or NULL. */
  function DataOf(h: Heap, owner: Oid): Oid
    requires owner in h && HasPtr(h[owner])
  {
    h[owner].ptr.now
  }

  /** The named assumption on construction: the contents written by a constructor are durable
      before the block is published. */
  ghost predicate ConstructionDurable(b: Block) {
    if b.PodBlock? then Settled(b.nelem) && forall i | 0 <= i < |b.elems| && i < b.nelem.now :: Settled(b.elems[i])
    else Fixed(b)
  }

  method AllocateCtr(pool: Pool, p: Place, b: Block) returns (ok: bool, id: Oid)
    requires IsPlace(pool.heap, p) && PtrAt(pool.heap, p).now == NULL
    requires ConstructionDurable(b)
    modifies pool
    ensures ok ==> id != NULL && id !in old(pool.heap)
    ensures ok ==> pool.heap == SetPtr(old(pool.heap), p, Durable(id))[id := b]
    ensures ok ==> pool.trace == old(pool.trace) + [pool.heap]
    ensures !ok ==> pool.heap == old(pool.heap) && pool.trace == old(pool.trace)
    ensures Executed(old(pool.heap), old(pool.trace), pool.heap, pool.trace)
    ensures pool.refusals == old(pool.refusals) + if ok then 0 else 1
  {
    ok, id := pool.AllocInto(p, b);
  }

  /** `PersistentPool::allocate`: the pointer to the new object is still on the stack, so a
      power cut loses the object until it is published. */
  method AllocateOnStack(pool: Pool, b: Block) returns (st: Outcome, id: Oid)
    requires ConstructionDurable(b)
    modifies pool
    ensures st in {Done, AllocationFailed}
    ensures st == Done ==> id != NULL && id !in old(pool.heap) && pool.heap == old(pool.heap)[id := b]
    ensures st == Done ==> pool.trace == old(pool.trace) + [pool.heap]
    ensures st != Done ==> pool.heap == old(pool.heap) && pool.trace == old(pool.trace)
    ensures Executed(old(pool.heap), old(pool.trace), pool.heap, pool.trace)
    ensures pool.refusals == old(pool.refusals) + Refusal(st)
  {
    var ok;
    ok, id := pool.AllocVolatile(b);
    st := if ok then Done else AllocationFailed;
  }

  /** The state between publication of the new block and the release of the old one. */
  ghost function Published(h: Heap, p: Place, id: Oid, b: Block): Heap
    requires IsPlace(h, p)
  {
    SetPtr(h, p, Durable(id))[id := b]
  }

  method ReplaceCtr(pool: Pool, p: Place, b: Block) returns (ok: bool, id: Oid)
    requires IsPlace(pool.heap, p) && PtrAt(pool.heap, p).now != NULL
    requires PtrAt(pool.heap, p).now in pool.heap
    requires ConstructionDurable(b)
    modifies pool
    ensures ok ==> id != NULL && id !in old(pool.heap)
    ensures ok ==> pool.heap == Published(old(pool.heap), p, id, b) - {PtrAt(old(pool.heap), p).now}
    ensures ok ==> pool.trace == old(pool.trace) + [Published(old(pool.heap), p, id, b), pool.heap]
    ensures !ok ==> pool.heap == old(pool.heap) && pool.trace == old(pool.trace)
    ensures Executed(old(pool.heap), old(pool.trace), pool.heap, pool.trace)
    ensures pool.refusals == old(pool.refusals) + if ok then 0 else 1
  {
    var previous := PtrAt(pool.heap, p).now;
    ok, id := pool.AllocInto(p, b);
    ghost var h1, tr1 := pool.heap, pool.trace;
    if ok {
      pool.Free(previous);
      ExecutedThen(old(pool.heap), old(pool.trace), h1, tr1, pool.heap, pool.trace);
    }
  }

  method SetPersist(pool: Pool, p: Place, v: Oid)
    requires IsPlace(pool.heap, p)
    modifies pool`heap, pool`trace
    ensures pool.heap == SetPtr(old(pool.heap), p, Durable(v))
    ensures pool.trace == old(pool.trace) + [SetPtr(old(pool.heap), p, Stored(PtrAt(old(pool.heap), p), v)), pool.heap]
    ensures Executed(old(pool.heap), old(pool.trace), pool.heap, pool.trace)
  {
    pool.StorePtr(p, v);
    ghost var h1, tr1 := pool.heap, pool.trace;
    pool.PersistPtr(p);
    ExecutedThen(old(pool.heap), old(pool.trace), h1, tr1, pool.heap, pool.trace);
    SetPtrTwice(old(pool.heap), p, Stored(PtrAt(old(pool.heap), p), v), Durable(v));
  }
}
