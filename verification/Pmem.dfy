/** Persistent memory as the library sees it: blocks named by object ids, and for every
    mutable word both its current value and the values that may be found after a power cut.

    libpmemobj itself is taken as given: `pmemobj_alloc` constructs a block and publishes its
    id in one indivisible durable step or changes nothing, `pmemobj_free` gives a block back
    in one step, and `pmemobj_persist` makes a range durable. */
module Pmem {
  newtype byte = x: int | 0 <= x < 256

  /** The bytes of a data blob, or of one plain-old-data element. */
  type Blob = seq<byte>

  /** FixedString<12>: keys and values of the decision tree. */
  type Name = s: string | |s| <= 12 witness ""

  type Oid = nat

  const NULL: Oid := 0

  datatype Option<T> = None | Some(value: T)

  // ----- words -----

  /** A word of persistent memory. `now` is what a load returns; `may` holds every value the
      word can have after a power cut, given that the processor may write a cache line back
      at any moment (module WriteBack proves that this set is exact). */
  datatype Cell<T(==)> = Cell(now: T, may: set<T>)

  /** What a load returns is always among the values that may reach the medium. Every heap below
      is built of such words, so a power cut can always leave its latest values (`LatestIsImage`). */
  type Word = c: Cell<nat> | c.now in c.may witness Cell(0, {0})

  /** One element of plain old data, longer than a word. */
  type Element = c: Cell<Blob> | c.now in c.may witness Cell([], {[]})

  function Durable<T(==)>(v: T): Cell<T> { Cell(v, {v}) }

  /** A plain store: the new value may or may not reach the medium. */
  function Stored<T(==)>(c: Cell<T>, v: T): Cell<T> { Cell(v, c.may + {v}) }

  /** A completed `pmemobj_persist`. */
  function Persisted<T(==)>(c: Cell<T>): Cell<T> { Cell(c.now, {c.now}) }

  predicate Settled<T(==)>(c: Cell<T>) { c.may == {c.now} }

  /** c' is what is found in the word c after a power cut. */
  predicate CellImage<T(==)>(c: Cell<T>, c': Cell<T>) {
    c'.now in c.may && Settled(c')
  }

  // ----- blocks -----

  /** Fields that only a constructor writes (key, value, data, cap, bytes) are plain values. */
  datatype Block =
    | RootBlock(ptr: Word)                                          // TreeRoot
    | NodeBlock(key: Name, value: Name, data: Oid, ptr: Word)       // TreeNode; ptr is items_
    | VectorBlock(cap: nat, nelem: Word, slots: seq<Word>)     // PersistentVectorData<TreeNode>
    | BufferBlock(bytes: Blob)                                           // PersistentBuffer
    | HolderBlock(ptr: Word)                                        // any object with one vector member
    | PodBlock(cap: nat, nelem: Word, elems: seq<Element>)       // PersistentPODVectorData<T>

  /** The type number recorded with each block. The pool of the decision tree uses 1, 2 and 3;
      the root's number is a constant of libpmemobj, the last two belong to user types. */
  function TypeNum(b: Block): nat {
    match b
    case RootBlock(_) => 0
    case NodeBlock(_, _, _, _) => 1
    case VectorBlock(_, _, _) => 2
    case BufferBlock(_) => 3
    case HolderBlock(_) => 4
    case PodBlock(_, _, _) => 5
  }

  predicate HasPtr(b: Block) { b.RootBlock? || b.NodeBlock? || b.HolderBlock? }

  function WithPtr(b: Block, c: Word): Block
    requires HasPtr(b)
  {
    match b
    case RootBlock(_) => RootBlock(c)
    case NodeBlock(k, v, d, _) => NodeBlock(k, v, d, c)
    case HolderBlock(_) => HolderBlock(c)
  }

  predicate HasCount(b: Block) { b.VectorBlock? || b.PodBlock? }

  function WithCount(b: Block, c: Word): Block
    requires HasCount(b)
  {
    match b
    case VectorBlock(cap, _, slots) => VectorBlock(cap, c, slots)
    case PodBlock(cap, _, elems) => PodBlock(cap, c, elems)
  }

  /** Nothing in the block is in flight. */
  ghost predicate Fixed(b: Block) {
    match b
    case RootBlock(p) => Settled(p)
    case NodeBlock(_, _, _, p) => Settled(p)
    case VectorBlock(_, n, s) => Settled(n) && forall i | 0 <= i < |s| :: Settled(s[i])
    case BufferBlock(_) => true
    case HolderBlock(p) => Settled(p)
    case PodBlock(_, n, e) => Settled(n) && forall i | 0 <= i < |e| :: Settled(e[i])
  }

  /** b' is what is found in the block b after a power cut: every word on its own. */
  predicate BlockImage(b: Block, b': Block) {
    match b
    case RootBlock(p) => b'.RootBlock? && CellImage(p, b'.ptr)
    case NodeBlock(k, v, d, p) =>
      b'.NodeBlock? && b'.key == k && b'.value == v && b'.data == d && CellImage(p, b'.ptr)
    case VectorBlock(c, n, s) =>
      b'.VectorBlock? && b'.cap == c && CellImage(n, b'.nelem) && |b'.slots| == |s|
      && forall i | 0 <= i < |s| :: CellImage(s[i], b'.slots[i])
    case BufferBlock(_) => b' == b
    case HolderBlock(p) => b'.HolderBlock? && CellImage(p, b'.ptr)
    case PodBlock(c, n, e) =>
      b'.PodBlock? && b'.cap == c && CellImage(n, b'.nelem) && |b'.elems| == |e|
      && forall i | 0 <= i < |e| :: CellImage(e[i], b'.elems[i])
  }

  // ----- heaps -----

  type Heap = map<Oid, Block>

  /** h' can be found when the pool is reopened after a power cut in state h. */
  predicate CrashImage(h: Heap, h': Heap) {
    h'.Keys == h.Keys && forall id | id in h :: BlockImage(h[id], h'[id])
  }

  lemma FixedBlockImage(b: Block, b': Block)
    requires Fixed(b) && BlockImage(b, b')
    ensures b' == b
  {
    match b
    case RootBlock(p) => assert b'.ptr == p;
    case NodeBlock(_, _, _, p) => assert b'.ptr == p;
    case VectorBlock(_, n, s) => assert b'.nelem == n && b'.slots == s;
    case BufferBlock(_) =>
    case HolderBlock(p) => assert b'.ptr == p;
    case PodBlock(_, n, e) => assert b'.nelem == n && b'.elems == e;
  }

  /** A power cut, or none: what is not in flight is unchanged. */
  ghost predicate Quiet(h: Heap, h': Heap) {
    forall id | id in h :: id in h' && (Fixed(h[id]) ==> h'[id] == h[id])
  }

  lemma {:induction false} CutIsQuiet(h: Heap, h': Heap)
    requires CrashImage(h, h')
    ensures Quiet(h, h')
  {
    forall id | id in h && Fixed(h[id]) ensures h'[id] == h[id] {
      FixedBlockImage(h[id], h'[id]);
    }
  }

  // ----- the image with no loss -----

  /** Every word of the block persisted as it is. */
  function Flushed(b: Block): Block {
    match b
    case RootBlock(p) => RootBlock(Persisted(p))
    case NodeBlock(k, v, d, p) => NodeBlock(k, v, d, Persisted(p))
    case VectorBlock(c, n, s) => VectorBlock(c, Persisted(n), seq(|s|, i requires 0 <= i < |s| => Persisted(s[i])))
    case BufferBlock(_) => b
    case HolderBlock(p) => HolderBlock(Persisted(p))
    case PodBlock(c, n, e) => PodBlock(c, Persisted(n), seq(|e|, i requires 0 <= i < |e| => Persisted(e[i])))
  }

  /** The power cut after which block `id` reads b' and every other word its latest value. */
  ghost function ImageWith(h: Heap, id: Oid, b': Block): Heap {
    map x | x in h :: if x == id then b' else Flushed(h[x])
  }

  /** Every state has a power cut that leaves it: the one that loses nothing. */
  lemma {:induction false} LatestIsImage(h: Heap)
    ensures CrashImage(h, map x | x in h :: Flushed(h[x]))
  {
  }

  lemma ImageWithIsImage(h: Heap, id: Oid, b': Block)
    requires id in h && BlockImage(h[id], b')
    ensures CrashImage(h, ImageWith(h, id, b'))
  {
  }

  /** Every block of h0 outside `except` is still there in h, unchanged. */
  ghost predicate Frame(h0: Heap, h: Heap, except: set<Oid>) {
    forall id | id in h0 && id !in except :: id in h && h[id] == h0[id]
  }

  // ----- places that hold a pointer -----

  /** A pointer member of an object, or one element of a vector. */
  datatype Place = Field(id: Oid) | Slot(id: Oid, index: nat)

  predicate IsPlace(h: Heap, p: Place) {
    p.id in h &&
    match p
    case Field(id) => HasPtr(h[id])
    case Slot(id, i) => h[id].VectorBlock? && i < |h[id].slots|
  }

  function PtrAt(h: Heap, p: Place): Word
    requires IsPlace(h, p)
  {
    match p
    case Field(id) => h[id].ptr
    case Slot(id, i) => h[id].slots[i]
  }

  function SetPtr(h: Heap, p: Place, c: Word): Heap
    requires IsPlace(h, p)
  {
    match p
    case Field(id) => h[id := WithPtr(h[id], c)]
    case Slot(id, i) => h[id := h[id].(slots := h[id].slots[i := c])]
  }

  predicate IsElem(h: Heap, id: Oid, i: nat) {
    id in h && h[id].PodBlock? && i < |h[id].elems|
  }

  function SetElem(h: Heap, id: Oid, i: nat, c: Element): Heap
    requires IsElem(h, id, i)
  {
    h[id := h[id].(elems := h[id].elems[i := c])]
  }

  /** A store longer than a word: a power cut may leave any of the mixtures `torn` as well. */
  function Torn(c: Element, x: Blob, torn: set<Blob>): Element { Cell(x, c.may + {x} + torn) }

  lemma SetPtrTwice(h: Heap, p: Place, c: Word, c': Word)
    requires IsPlace(h, p)
    ensures IsPlace(SetPtr(h, p, c), p) && PtrAt(SetPtr(h, p, c), p) == c
    ensures SetPtr(SetPtr(h, p, c), p, c') == SetPtr(h, p, c')
  {
    if p.Slot? {
      assert h[p.id].slots[p.index := c][p.index := c'] == h[p.id].slots[p.index := c'];
    }
    assert SetPtr(SetPtr(h, p, c), p, c') == SetPtr(h, p, c');
  }

  // ----- the pool -----

  lemma FreshIdExists(s: set<Oid>)
    ensures exists id: Oid :: id != NULL && id !in s
  {
    var top := UpperBound(s);
    assert top + 1 !in s;
  }

  lemma UpperBound(s: set<Oid>) returns (top: Oid)
    ensures forall x | x in s :: x <= top
  {
    if s == {} {
      top := 0;
    } else {
      var x :| x in s;
      var rest := UpperBound(s - {x});
      top := if x < rest then rest else x;
      assert forall y | y in s :: y == x || y in s - {x};
    }
  }

  // ----- steps -----

  /** The indivisible steps of the machine. */
  datatype Step =
    | StoresPtr(p: Place, ptr: Oid)
    | PersistsPtr(p: Place)
    | StoresCount(id: Oid, n: nat)
    | PersistsCount(id: Oid)
    | StoresElem(id: Oid, i: nat, x: Blob, torn: set<Blob>)
    | PersistsElem(id: Oid, i: nat)
    | Allocates(p: Place, id: Oid, b: Block)
    | AllocatesAside(id: Oid, b: Block)
    | Frees(id: Oid)

  ghost predicate Performs(s: Step, h: Heap, h': Heap) {
    match s
    case StoresPtr(p, ptr) => IsPlace(h, p) && h' == SetPtr(h, p, Stored(PtrAt(h, p), ptr))
    case PersistsPtr(p) => IsPlace(h, p) && h' == SetPtr(h, p, Persisted(PtrAt(h, p)))
    case StoresCount(id, n) =>
      id in h && HasCount(h[id]) && h' == h[id := WithCount(h[id], Stored(h[id].nelem, n))]
    case PersistsCount(id) =>
      id in h && HasCount(h[id]) && h' == h[id := WithCount(h[id], Persisted(h[id].nelem))]
    case StoresElem(id, i, x, torn) => IsElem(h, id, i) && h' == SetElem(h, id, i, Torn(h[id].elems[i], x, torn))
    case PersistsElem(id, i) => IsElem(h, id, i) && h' == SetElem(h, id, i, Persisted(h[id].elems[i]))
    case Allocates(p, id, b) => id != NULL && id !in h && IsPlace(h, p) && h' == SetPtr(h, p, Durable(id))[id := b]
    case AllocatesAside(id, b) => id != NULL && id !in h && h' == h[id := b]
    case Frees(id) => id in h && h' == h - {id}
  }

  ghost predicate OneStep(h: Heap, h': Heap) { exists s :: Performs(s, h, h') }

  /** The state before entry k of a trace whose entries from n on started in h0. */
  ghost function StateAt(h0: Heap, n: nat, tr: seq<Heap>, k: nat): Heap
    requires n <= k <= |tr|
  {
    if k == n then h0 else tr[k - 1]
  }

  /** From h0 and its trace to h and its trace by recorded steps: each new entry follows from the
      state before it by exactly one step, and the last is h. So a trace leaves no step out, takes
      no two together, and ends in the present. */
  ghost predicate Executed(h0: Heap, tr0: seq<Heap>, h: Heap, tr: seq<Heap>) {
    && tr0 <= tr && h == StateAt(h0, |tr0|, tr, |tr|)
    && forall k | |tr0| <= k < |tr| :: OneStep(StateAt(h0, |tr0|, tr, k), tr[k])
  }

  lemma {:induction false} NothingExecuted(h: Heap, tr: seq<Heap>)
    ensures Executed(h, tr, h, tr)
  {
  }

  lemma {:induction false} OneExecuted(s: Step, h0: Heap, tr0: seq<Heap>, h: Heap)
    requires Performs(s, h0, h)
    ensures Executed(h0, tr0, h, tr0 + [h])
  {
    assert OneStep(h0, h);
  }

  lemma {:induction false} ExecutedThen(h0: Heap, tr0: seq<Heap>, h1: Heap, tr1: seq<Heap>, h: Heap, tr: seq<Heap>)
    requires Executed(h0, tr0, h1, tr1) && Executed(h1, tr1, h, tr)
    ensures Executed(h0, tr0, h, tr)
  {
    hide OneStep;
    forall k | |tr0| <= k < |tr| ensures OneStep(StateAt(h0, |tr0|, tr, k), tr[k]) {
      if k < |tr1| {
        EntryOf(h0, tr0, h1, tr1, k);
      } else {
        EntryOf(h1, tr1, h, tr, k);
      }
    }
  }

  lemma {:induction false} EntryOf(h0: Heap, tr0: seq<Heap>, h: Heap, tr: seq<Heap>, k: nat)
    requires Executed(h0, tr0, h, tr) && |tr0| <= k < |tr|
    ensures OneStep(if k == |tr0| then h0 else tr[k - 1], tr[k])
  {
    hide OneStep;
  }

  lemma {:induction false} LastOfTrace(h0: Heap, tr0: seq<Heap>, h: Heap, tr: seq<Heap>)
    requires Executed(h0, tr0, h, tr)
    ensures tr0 <= tr && h == StateAt(h0, |tr0|, tr, |tr|)
  {
  }

  /** No step since has allocated or released a block. */
  ghost predicate SameLive(h0: Heap, tr0: seq<Heap>, tr: seq<Heap>) {
    forall k | |tr0| <= k < |tr| :: tr[k].Keys == h0.Keys
  }

  lemma {:induction false} SameLiveThen(h0: Heap, tr0: seq<Heap>, h1: Heap, tr1: seq<Heap>, tr: seq<Heap>)
    requires SameLive(h0, tr0, tr1) && h1.Keys == h0.Keys && SameLive(h1, tr1, tr) && tr1 <= tr
    ensures SameLive(h0, tr0, tr)
  {
    forall k | |tr0| <= k < |tr| ensures tr[k].Keys == h0.Keys {
      if k < |tr1| {
        assert tr[k] == tr1[k];
      }
    }
  }

  /** The new entries by themselves. */
  lemma {:induction false} ExecutedAlone(h0: Heap, tr0: seq<Heap>, h: Heap, tr: seq<Heap>)
    requires Executed(h0, tr0, h, tr)
    ensures Executed(h0, [], h, tr[|tr0|..])
  {
    hide OneStep;
    var steps := tr[|tr0|..];
    forall k | 0 <= k < |steps| ensures OneStep(StateAt(h0, 0, steps, k), steps[k]) {
      assert steps[k] == tr[|tr0| + k];
      assert StateAt(h0, 0, steps, k) == StateAt(h0, |tr0|, tr, |tr0| + k);
    }
  }

  /** An open pool. Each method below is one indivisible step of the machine; `trace` records
      the state after each of them, so that a caller's contract can speak of a power cut
      between any two steps. `refusals` counts the allocations that have been refused. Only the
      methods of this class assign its fields. */
  class Pool {
    var heap: Heap
    var trace: seq<Heap>
    var refusals: nat

    constructor (h: Heap)
      ensures heap == h && trace == [] && refusals == 0
    {
      heap, trace, refusals := h, [], 0;
    }

    /** Plain assignment to a pointer held in persistent memory. The two words of the id are
        taken as one. */
    method StorePtr(p: Place, v: Oid)
      requires IsPlace(heap, p)
      modifies this`heap, this`trace
      ensures heap == SetPtr(old(heap), p, Stored(PtrAt(old(heap), p), v))
      ensures trace == old(trace) + [heap] && Executed(old(heap), old(trace), heap, trace)
    {
      heap := SetPtr(heap, p, Stored(PtrAt(heap, p), v));
      trace := trace + [heap];
      OneExecuted(StoresPtr(p, v), old(heap), old(trace), heap);
    }

    method PersistPtr(p: Place)
      requires IsPlace(heap, p)
      modifies this`heap, this`trace
      ensures heap == SetPtr(old(heap), p, Persisted(PtrAt(old(heap), p)))
      ensures trace == old(trace) + [heap] && Executed(old(heap), old(trace), heap, trace)
    {
      heap := SetPtr(heap, p, Persisted(PtrAt(heap, p)));
      trace := trace + [heap];
      OneExecuted(PersistsPtr(p), old(heap), old(trace), heap);
    }

    method StoreCount(id: Oid, n: nat)
      requires id in heap && HasCount(heap[id])
      modifies this`heap, this`trace
      ensures heap == old(heap)[id := WithCount(old(heap)[id], Stored(old(heap)[id].nelem, n))]
      ensures trace == old(trace) + [heap] && Executed(old(heap), old(trace), heap, trace)
    {
      heap := heap[id := WithCount(heap[id], Stored(heap[id].nelem, n))];
      trace := trace + [heap];
      OneExecuted(StoresCount(id, n), old(heap), old(trace), heap);
    }

    method PersistCount(id: Oid)
      requires id in heap && HasCount(heap[id])
      modifies this`heap, this`trace
      ensures heap == old(heap)[id := WithCount(old(heap)[id], Persisted(old(heap)[id].nelem))]
      ensures trace == old(trace) + [heap] && Executed(old(heap), old(trace), heap, trace)
    {
      heap := heap[id := WithCount(heap[id], Persisted(heap[id].nelem))];
      trace := trace + [heap];
      OneExecuted(PersistsCount(id), old(heap), old(trace), heap);
    }

    /** Assignment of a whole element. An element is longer than a word, so a power cut may
        leave any mixture of old and new bytes: `torn` is an arbitrary set of such mixtures. */
    method StoreElem(id: Oid, i: nat, v: Blob, torn: set<Blob>)
      requires IsElem(heap, id, i)
      modifies this`heap, this`trace
      ensures heap == SetElem(old(heap), id, i, Torn(old(heap)[id].elems[i], v, torn))
      ensures trace == old(trace) + [heap] && Executed(old(heap), old(trace), heap, trace)
    {
      heap := SetElem(heap, id, i, Torn(heap[id].elems[i], v, torn));
      trace := trace + [heap];
      OneExecuted(StoresElem(id, i, v, torn), old(heap), old(trace), heap);
    }

    method PersistElem(id: Oid, i: nat)
      requires IsElem(heap, id, i)
      modifies this`heap, this`trace
      ensures heap == SetElem(old(heap), id, i, Persisted(old(heap)[id].elems[i]))
      ensures trace == old(trace) + [heap] && Executed(old(heap), old(trace), heap, trace)
    {
      heap := SetElem(heap, id, i, Persisted(heap[id].elems[i]));
      trace := trace + [heap];
      OneExecuted(PersistsElem(id, i), old(heap), old(trace), heap);
    }

    /** `pmemobj_alloc` with its destination in persistent memory. */
    method AllocInto(p: Place, b: Block) returns (ok: bool, id: Oid)
      requires IsPlace(heap, p)
      modifies this
      ensures ok ==> id != NULL && id !in old(heap)
      ensures ok ==> heap == SetPtr(old(heap), p, Durable(id))[id := b]
      ensures ok ==> trace == old(trace) + [heap]
      ensures !ok ==> heap == old(heap) && trace == old(trace)
      ensures Executed(old(heap), old(trace), heap, trace)
      ensures refusals == if ok then old(refusals) else old(refusals) + 1
    {
      ok, id := *, NULL;
      if ok {
        FreshIdExists(heap.Keys);
        id :| id != NULL && id !in heap.Keys;
        heap := SetPtr(heap, p, Durable(id))[id := b];
        trace := trace + [heap];
        OneExecuted(Allocates(p, id, b), old(heap), old(trace), heap);
      } else {
        refusals := refusals + 1;
      }
    }

    /** `pmemobj_alloc` with its destination on the stack. */
    method AllocVolatile(b: Block) returns (ok: bool, id: Oid)
      modifies this
      ensures ok ==> id != NULL && id !in old(heap) && heap == old(heap)[id := b]
      ensures ok ==> trace == old(trace) + [heap]
      ensures !ok ==> heap == old(heap) && trace == old(trace)
      ensures Executed(old(heap), old(trace), heap, trace)
      ensures refusals == if ok then old(refusals) else old(refusals) + 1
    {
      ok, id := *, NULL;
      if ok {
        FreshIdExists(heap.Keys);
        id :| id != NULL && id !in heap.Keys;
        heap := heap[id := b];
        trace := trace + [heap];
        OneExecuted(AllocatesAside(id, b), old(heap), old(trace), heap);
      } else {
        refusals := refusals + 1;
      }
    }

    /** `pmemobj_free` through an id held on the stack, as `replace_ctr` gives back the old block:
        the id that it nulls is the copy on the stack. */
    method Free(id: Oid)
      requires id in heap
      modifies this`heap, this`trace
      ensures heap == old(heap) - {id}
      ensures trace == old(trace) + [heap] && Executed(old(heap), old(trace), heap, trace)
    {
      heap := heap - {id};
      trace := trace + [heap];
      OneExecuted(Frees(id), old(heap), old(trace), heap);
    }

    /** The power fails, in the present state or one passed through, and the pool is opened again. */
    method PowerCut(ghost h: Heap, image: Heap)
      requires (h == heap || h in trace) && CrashImage(h, image)
      modifies this`heap, this`trace
      ensures heap == image && trace == []
    {
      heap, trace := image, [];
    }
  }

  // ----- the power supply -----

  /** The power may fail while no call is under way, after all calls before call i have returned;
      or at any step of call i. */
  datatype Moment = Before(call: nat) | During(call: nat)

  /** The environment sees the states that the pool is in, or passes through, at that moment, and
      may choose what the pool holds when it is next opened. */
  type Power = (Moment, seq<Heap>) -> Option<Heap>

  /** The choice is one that a power cut in one of these states can leave. */
  predicate IsCut(steps: seq<Heap>, choice: Option<Heap>) {
    choice.Some? && exists k | 0 <= k < |steps| :: CrashImage(steps[k], choice.value)
  }

  /** How the power behaved around call i, which began in h and took these steps. */
  datatype Supply = CutBefore | CutDuring | Held

  predicate FailsBefore(power: Power, i: nat, h: Heap) { IsCut([h], power(Before(i), [h])) }

  predicate FailsDuring(power: Power, i: nat, steps: seq<Heap>) { IsCut(steps, power(During(i), steps)) }

  /** The supply decides: call i began in h, would have taken these steps to `end`, and leaves h'. */
  ghost predicate Supplied(power: Power, i: nat, h: Heap, steps: seq<Heap>, end: Heap, h': Heap, supply: Supply) {
    if FailsBefore(power, i, h) then supply == CutBefore && h' == power(Before(i), [h]).value
    else if FailsDuring(power, i, steps) then supply == CutDuring && h' == power(During(i), steps).value
    else supply == Held && h' == end
  }
}
