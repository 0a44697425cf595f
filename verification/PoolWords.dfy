/** The words of a pool are words of a write-back device: what `CrashImage` allows is exactly what
    the medium can hold. Allocation and release add and remove whole blocks in one durable step,
    which is what libpmemobj promises; everything between goes through the cache. `AtOpening` and
    `OneMoreEvent` connect a device to a pool; the result is `EveryHeapIsBehindACache`. */
module PoolWords {
  import opened Pmem
  import opened WriteBack

  // ----- the words of a heap -----

  datatype Addr = PtrWord(id: Oid) | CountWord(id: Oid) | SlotWord(id: Oid, index: nat)

  datatype ElemAddr = ElemAddr(id: Oid, index: nat)

  predicate IsWord(h: Heap, a: Addr) {
    a.id in h &&
    match a
    case PtrWord(id) => HasPtr(h[id])
    case CountWord(id) => HasCount(h[id])
    case SlotWord(id, i) => h[id].VectorBlock? && i < |h[id].slots|
  }

  function WordAt(h: Heap, a: Addr): Cell<nat>
    requires IsWord(h, a)
  {
    match a
    case PtrWord(id) => h[id].ptr
    case CountWord(id) => h[id].nelem
    case SlotWord(id, i) => h[id].slots[i]
  }

  predicate IsElemAt(h: Heap, a: ElemAddr) { a.id in h && h[a.id].PodBlock? && a.index < |h[a.id].elems| }

  ghost function Words(h: Heap): imap<Addr, Cell<nat>> { imap a: Addr | IsWord(h, a) :: WordAt(h, a) }

  ghost function Elems(h: Heap): imap<ElemAddr, Cell<Blob>> {
    imap a: ElemAddr | IsElemAt(h, a) :: h[a.id].elems[a.index]
  }

  ghost function Latest<L, V>(cells: imap<L, Cell<V>>): imap<L, V> { imap l | l in cells :: cells[l].now }

  // ----- power cuts -----

  /** The same kind of block, with the same plain fields and as many words. */
  predicate SameShape(b: Block, b': Block) {
    match b
    case RootBlock(_) => b'.RootBlock?
    case NodeBlock(k, v, d, _) => b'.NodeBlock? && b'.key == k && b'.value == v && b'.data == d
    case VectorBlock(c, _, s) => b'.VectorBlock? && b'.cap == c && |b'.slots| == |s|
    case BufferBlock(_) => b' == b
    case HolderBlock(_) => b'.HolderBlock?
    case PodBlock(c, _, e) => b'.PodBlock? && b'.cap == c && |b'.elems| == |e|
  }

  ghost predicate Reopens(h: Heap, h': Heap) {
    h'.Keys == h.Keys && forall id | id in h :: SameShape(h[id], h'[id]) && Fixed(h'[id])
  }

  /** Every word and every element of h' holds a value that its `may` set in h allows. */
  ghost predicate AllAllowed(h: Heap, h': Heap) {
    Allowed(Latest(Words(h')), Words(h)) && Allowed(Latest(Elems(h')), Elems(h))
  }

  lemma {:induction false} WordOfImage(h: Heap, h': Heap, a: Addr)
    requires CrashImage(h, h') && (IsWord(h, a) || IsWord(h', a))
    ensures IsWord(h, a) && IsWord(h', a) && CellImage(WordAt(h, a), WordAt(h', a))
  {
    assert BlockImage(h[a.id], h'[a.id]);
  }

  lemma {:induction false} ElemOfImage(h: Heap, h': Heap, a: ElemAddr)
    requires CrashImage(h, h') && (IsElemAt(h, a) || IsElemAt(h', a))
    ensures IsElemAt(h, a) && IsElemAt(h', a) && CellImage(h[a.id].elems[a.index], h'[a.id].elems[a.index])
  {
    assert BlockImage(h[a.id], h'[a.id]);
  }

  lemma {:induction false} ImageIsAllowed(h: Heap, h': Heap)
    requires CrashImage(h, h')
    ensures Reopens(h, h') && AllAllowed(h, h')
  {
    forall id | id in h ensures SameShape(h[id], h'[id]) && Fixed(h'[id]) {
      assert BlockImage(h[id], h'[id]);
    }
    forall a: Addr | IsWord(h, a) || IsWord(h', a)
      ensures IsWord(h, a) && IsWord(h', a) && CellImage(WordAt(h, a), WordAt(h', a))
    {
      WordOfImage(h, h', a);
    }
    forall a: ElemAddr | IsElemAt(h, a) || IsElemAt(h', a)
      ensures IsElemAt(h, a) && IsElemAt(h', a) && CellImage(h[a.id].elems[a.index], h'[a.id].elems[a.index])
    {
      ElemOfImage(h, h', a);
    }
  }

  lemma {:induction false} AllowedWord(h: Heap, h': Heap, a: Addr)
    requires AllAllowed(h, h') && IsWord(h, a)
    ensures IsWord(h', a) && WordAt(h', a).now in WordAt(h, a).may
  {
    assert a in Words(h);
    assert a in Latest(Words(h'));
  }

  lemma {:induction false} AllowedElem(h: Heap, h': Heap, a: ElemAddr)
    requires AllAllowed(h, h') && IsElemAt(h, a)
    ensures IsElemAt(h', a) && h'[a.id].elems[a.index].now in h[a.id].elems[a.index].may
  {
    assert a in Elems(h);
    assert a in Latest(Elems(h'));
  }

  lemma {:induction false} AllowedBlock(h: Heap, h': Heap, id: Oid)
    requires AllAllowed(h, h') && id in h && id in h' && SameShape(h[id], h'[id]) && Fixed(h'[id])
    ensures BlockImage(h[id], h'[id])
  {
    hide AllAllowed;
    var b, b' := h[id], h'[id];
    if HasPtr(b) {
      AllowedWord(h, h', PtrWord(id));
    } else if HasCount(b) {
      AllowedWord(h, h', CountWord(id));
      if b.VectorBlock? {
        forall i | 0 <= i < |b.slots| ensures CellImage(b.slots[i], b'.slots[i]) {
          AllowedWord(h, h', SlotWord(id, i));
        }
      } else {
        forall i | 0 <= i < |b.elems| ensures CellImage(b.elems[i], b'.elems[i]) {
          AllowedElem(h, h', ElemAddr(id, i));
        }
      }
    }
  }

  /** A power cut can leave h' exactly when the blocks are the same and every word and every
      element holds one of the values that its `may` set allows on the medium. */
  lemma {:induction false} ImageIffAllowed(h: Heap, h': Heap)
    ensures CrashImage(h, h') <==> Reopens(h, h') && AllAllowed(h, h')
  {
    hide AllAllowed, SameShape, Fixed, BlockImage;
    if CrashImage(h, h') {
      ImageIsAllowed(h, h');
    } else if Reopens(h, h') && AllAllowed(h, h') {
      forall id | id in h ensures BlockImage(h[id], h'[id]) {
        AllowedBlock(h, h', id);
      }
    }
  }

  // ----- the steps of a pool as events -----

  lemma SameCells<L, V>(m: imap<L, V>, n: imap<L, V>)
    requires forall l | l in m || l in n :: l in m && l in n && m[l] == n[l]
    ensures m == n
  {
  }

  ghost function AddrOf(p: Place): Addr {
    match p
    case Field(id) => PtrWord(id)
    case Slot(id, i) => SlotWord(id, i)
  }

  lemma {:induction false} PtrSet(h: Heap, p: Place, c: Word)
    requires IsPlace(h, p)
    ensures Words(SetPtr(h, p, c)) == Words(h)[AddrOf(p) := c] && Elems(SetPtr(h, p, c)) == Elems(h)
  {
    SameCells(Words(SetPtr(h, p, c)), Words(h)[AddrOf(p) := c]);
    SameCells(Elems(SetPtr(h, p, c)), Elems(h));
  }

  /** The two steps on a pointer: one store, one persist. */
  lemma {:induction false} PtrSteps(h: Heap, p: Place, v: Oid)
    requires IsPlace(h, p)
    ensures Words(SetPtr(h, p, Stored(PtrAt(h, p), v))) == CellsStep(Words(h), Store(AddrOf(p), v))
    ensures Words(SetPtr(h, p, Persisted(PtrAt(h, p)))) == CellsStep(Words(h), Persist(AddrOf(p)))
    ensures Elems(SetPtr(h, p, Stored(PtrAt(h, p), v))) == Elems(SetPtr(h, p, Persisted(PtrAt(h, p)))) == Elems(h)
  {
    PtrSet(h, p, Stored(PtrAt(h, p), v));
    PtrSet(h, p, Persisted(PtrAt(h, p)));
  }

  lemma {:induction false} CountSet(h: Heap, id: Oid, c: Word)
    requires id in h && HasCount(h[id])
    ensures var h' := h[id := WithCount(h[id], c)];
            Words(h') == Words(h)[CountWord(id) := c] && Elems(h') == Elems(h)
  {
    var h' := h[id := WithCount(h[id], c)];
    SameCells(Words(h'), Words(h)[CountWord(id) := c]);
    SameCells(Elems(h'), Elems(h));
  }

  /** The two steps on a counter. */
  lemma {:induction false} CountSteps(h: Heap, id: Oid, n: nat)
    requires id in h && HasCount(h[id])
    ensures var stored := h[id := WithCount(h[id], Stored(h[id].nelem, n))];
            Words(stored) == CellsStep(Words(h), Store(CountWord(id), n)) && Elems(stored) == Elems(h)
    ensures var persisted := h[id := WithCount(h[id], Persisted(h[id].nelem))];
            Words(persisted) == CellsStep(Words(h), Persist(CountWord(id))) && Elems(persisted) == Elems(h)
  {
    CountSet(h, id, Stored(h[id].nelem, n));
    CountSet(h, id, Persisted(h[id].nelem));
  }

  /** An element stored piece by piece: the mixtures it passes through, then the whole value. */
  ghost function StoreAll<L, V>(cells: imap<L, Cell<V>>, at: L, pieces: seq<V>): (r: imap<L, Cell<V>>)
    requires at in cells
    ensures at in r
    decreases |pieces|
  {
    if pieces == [] then cells
    else
      var n := |pieces| - 1;
      CellsStep(StoreAll(cells, at, pieces[..n]), Store(at, pieces[n]))
  }

  ghost function Values<V>(pieces: seq<V>): set<V> { set x | x in pieces }

  lemma {:induction false} StoreAllIs<L, V>(cells: imap<L, Cell<V>>, at: L, pieces: seq<V>)
    requires at in cells && pieces != []
    ensures StoreAll(cells, at, pieces) == cells[at := Cell(pieces[|pieces| - 1], cells[at].may + Values(pieces))]
    decreases |pieces|
  {
    var n := |pieces| - 1;
    assert pieces == pieces[..n] + [pieces[n]];
    if n > 0 {
      StoreAllIs(cells, at, pieces[..n]);
    } else {
      assert pieces[..n] == [] && Values(pieces) == {pieces[0]};
    }
    assert cells[at].may + Values(pieces[..n]) + {pieces[n]} == cells[at].may + Values(pieces);
    var before := StoreAll(cells, at, pieces[..n]);
    assert before[at].may + {pieces[n]} == cells[at].may + Values(pieces);
    SameCells(StoreAll(cells, at, pieces), cells[at := Cell(pieces[n], cells[at].may + Values(pieces))]);
  }

  lemma {:induction false} ElemSet(h: Heap, id: Oid, i: nat, c: Element)
    requires id in h && h[id].PodBlock? && i < |h[id].elems|
    ensures var h' := h[id := h[id].(elems := h[id].elems[i := c])];
            Elems(h') == Elems(h)[ElemAddr(id, i) := c] && Words(h') == Words(h)
  {
    var h' := h[id := h[id].(elems := h[id].elems[i := c])];
    SameCells(Elems(h'), Elems(h)[ElemAddr(id, i) := c]);
    SameCells(Words(h'), Words(h));
  }

  /** The two steps on an element: storing it is as many stores as there are mixtures, and one. */
  lemma {:induction false} ElemSteps(h: Heap, id: Oid, i: nat, v: Blob, torn: seq<Blob>)
    requires id in h && h[id].PodBlock? && i < |h[id].elems|
    ensures var b := h[id];
            var stored := h[id := b.(elems := b.elems[i := Cell(v, b.elems[i].may + {v} + Values(torn))])];
            Elems(stored) == StoreAll(Elems(h), ElemAddr(id, i), torn + [v]) && Words(stored) == Words(h)
    ensures var b := h[id];
            var persisted := h[id := b.(elems := b.elems[i := Persisted(b.elems[i])])];
            Elems(persisted) == CellsStep(Elems(h), Persist(ElemAddr(id, i))) && Words(persisted) == Words(h)
  {
    var b := h[id];
    ElemSet(h, id, i, Cell(v, b.elems[i].may + {v} + Values(torn)));
    ElemSet(h, id, i, Persisted(b.elems[i]));
    StoreAllIs(Elems(h), ElemAddr(id, i), torn + [v]);
    assert b.elems[i].may + {v} + Values(torn) == b.elems[i].may + Values(torn + [v]);
  }

  /** The two heaps have the same blocks, but for words and elements. */
  ghost predicate SameBlocks(h: Heap, h': Heap) {
    h'.Keys == h.Keys && forall id | id in h :: SameShape(h[id], h'[id])
  }

  /** Every block of h but `except` is in h', unchanged. */
  ghost predicate Kept(h: Heap, h': Heap, except: set<Oid>) {
    forall id | id in h && id !in except :: id in h' && h'[id] == h[id]
  }

  /** What each step of a pool is to the device: a store or persist is an event on one word, or on one
      element; an allocation adds one block, and at most points one word at it, durably; a release
      takes one block away. Nothing else changes. */
  ghost predicate IsEvent(s: Step, h: Heap, h': Heap) {
    match s
    case StoresPtr(p, ptr) =>
      AddrOf(p) in Words(h) && SameBlocks(h, h') && Elems(h') == Elems(h)
      && Words(h') == CellsStep(Words(h), Store(AddrOf(p), ptr))
    case PersistsPtr(p) =>
      AddrOf(p) in Words(h) && SameBlocks(h, h') && Elems(h') == Elems(h)
      && Words(h') == CellsStep(Words(h), Persist(AddrOf(p)))
    case StoresCount(id, n) =>
      CountWord(id) in Words(h) && SameBlocks(h, h') && Elems(h') == Elems(h)
      && Words(h') == CellsStep(Words(h), Store(CountWord(id), n))
    case PersistsCount(id) =>
      CountWord(id) in Words(h) && SameBlocks(h, h') && Elems(h') == Elems(h)
      && Words(h') == CellsStep(Words(h), Persist(CountWord(id)))
    case StoresElem(id, i, x, torn) =>
      ElemAddr(id, i) in Elems(h) && SameBlocks(h, h') && Words(h') == Words(h)
      && exists pieces: seq<Blob> ::
           Values(pieces) == torn && Elems(h') == StoreAll(Elems(h), ElemAddr(id, i), pieces + [x])
    case PersistsElem(id, i) =>
      ElemAddr(id, i) in Elems(h) && SameBlocks(h, h') && Words(h') == Words(h)
      && Elems(h') == CellsStep(Elems(h), Persist(ElemAddr(id, i)))
    case Allocates(p, id, b) =>
      && id != NULL && id !in h && h'.Keys == h.Keys + {id} && h'[id] == b && Kept(h, h', {p.id})
      && IsPlace(h, p) && p.id != id && SameShape(h[p.id], h'[p.id])
      && (forall a | IsWord(h, a) && a.id == p.id ::
            IsWord(h', a) && WordAt(h', a) == if a == AddrOf(p) then Durable(id) else WordAt(h, a))
    case AllocatesAside(id, b) => id != NULL && id !in h && h'.Keys == h.Keys + {id} && h'[id] == b && Kept(h, h', {})
    case Frees(id) => id in h && h'.Keys == h.Keys - {id} && Kept(h, h', {id})
  }

  lemma {:induction false} PlaceIsWord(h: Heap, p: Place, c: Word)
    requires IsPlace(h, p)
    ensures AddrOf(p) in Words(h) && SameBlocks(h, SetPtr(h, p, c))
  {
  }

  lemma {:induction false} PtrEvent(s: Step, h: Heap, h': Heap)
    requires Performs(s, h, h') && (s.StoresPtr? || s.PersistsPtr?)
    ensures IsEvent(s, h, h')
  {
    hide CellsStep, Elems, Words, SameBlocks, SetPtr, PtrAt, IsPlace;
    match s
    case StoresPtr(p, ptr) =>
      PlaceIsWord(h, p, Stored(PtrAt(h, p), ptr));
      PtrSteps(h, p, ptr);
    case PersistsPtr(p) =>
      PlaceIsWord(h, p, Persisted(PtrAt(h, p)));
      PtrSteps(h, p, NULL);
  }

  lemma {:induction false} CountEvent(s: Step, h: Heap, h': Heap)
    requires Performs(s, h, h') && (s.StoresCount? || s.PersistsCount?)
    ensures IsEvent(s, h, h')
  {
    hide CellsStep, Elems;
    match s
    case StoresCount(id, n) => CountSteps(h, id, n);
    case PersistsCount(id) => CountSteps(h, id, 0);
  }

  lemma {:induction false} ElemEvent(s: Step, h: Heap, h': Heap)
    requires Performs(s, h, h') && (s.StoresElem? || s.PersistsElem?)
    ensures IsEvent(s, h, h')
  {
    hide CellsStep, Words, StoreAll, Values;
    match s
    case StoresElem(id, i, x, torn) =>
      var pieces := InOrder(torn);
      ElemSteps(h, id, i, x, pieces);
      assert Values(pieces) == torn && Elems(h') == StoreAll(Elems(h), ElemAddr(id, i), pieces + [x]);
    case PersistsElem(id, i) => ElemSteps(h, id, i, [], []);
  }

  lemma {:induction false} BlockEvent(s: Step, h: Heap, h': Heap)
    requires Performs(s, h, h') && (s.Allocates? || s.AllocatesAside? || s.Frees?)
    ensures IsEvent(s, h, h')
  {
    hide CellsStep, Words, Elems, StoreAll;
  }

  lemma {:induction false} StepIsEvent(s: Step, h: Heap, h': Heap)
    requires Performs(s, h, h')
    ensures IsEvent(s, h, h')
  {
    hide Performs, IsEvent;
    match s
    case StoresPtr(_, _) => PtrEvent(s, h, h');
    case PersistsPtr(_) => PtrEvent(s, h, h');
    case StoresCount(_, _) => CountEvent(s, h, h');
    case PersistsCount(_) => CountEvent(s, h, h');
    case StoresElem(_, _, _, _) => ElemEvent(s, h, h');
    case PersistsElem(_, _) => ElemEvent(s, h, h');
    case Allocates(_, _, _) => BlockEvent(s, h, h');
    case AllocatesAside(_, _) => BlockEvent(s, h, h');
    case Frees(_) => BlockEvent(s, h, h');
  }

  // ----- a pool and its device -----

  /** A pool just opened is a device with nothing in flight. */
  lemma {:induction false} AtOpening(h: Heap)
    requires forall id | id in h :: Fixed(h[id])
    ensures Words(h) == Cells(Device(Latest(Words(h)), Latest(Words(h))), [])
    ensures Elems(h) == Cells(Device(Latest(Elems(h)), Latest(Elems(h))), [])
  {
    forall a: Addr | IsWord(h, a) ensures WordAt(h, a).may == {WordAt(h, a).now, WordAt(h, a).now} {
      assert Fixed(h[a.id]);
    }
    forall a: ElemAddr | IsElemAt(h, a)
      ensures var c := h[a.id].elems[a.index]; c.may == {c.now, c.now}
    {
      assert Fixed(h[a.id]);
    }
    SameCells(Words(h), Cells(Device(Latest(Words(h)), Latest(Words(h))), []));
    SameCells(Elems(h), Cells(Device(Latest(Elems(h)), Latest(Elems(h))), []));
  }

  /** Each event of a step is one more event of the device. */
  lemma {:induction false} OneMoreEvent<L, V>(d: Device<L, V>, es: seq<Event<L, V>>, e: Event<L, V>)
    requires d.Valid() && Addresses(d, es) && e.at in d.cached
    ensures Addresses(d, es + [e]) && Cells(d, es + [e]) == CellsStep(Cells(d, es), e)
  {
    assert (es + [e])[..|es|] == es;
  }

  // ----- every heap has a device -----

  ghost function Stores<L, V>(at: L, pieces: seq<V>): (es: seq<Event<L, V>>)
    ensures |es| == |pieces| && forall e | e in es :: e.at == at
  {
    seq(|pieces|, i requires 0 <= i < |pieces| => Store(at, pieces[i]))
  }

  lemma {:induction false} StoresAppended<L, V>(d: Device<L, V>, es: seq<Event<L, V>>, at: L, pieces: seq<V>)
    requires d.Valid() && Addresses(d, es) && at in d.cached
    ensures Addresses(d, es + Stores(at, pieces))
    ensures Cells(d, es + Stores(at, pieces)) == StoreAll(Cells(d, es), at, pieces)
    decreases |pieces|
  {
    hide Cells, Stores;
    if pieces == [] {
      assert es + Stores(at, pieces) == es;
    } else {
      var n := |pieces| - 1;
      StoresAppended(d, es, at, pieces[..n]);
      OneMoreEvent(d, es + Stores(at, pieces[..n]), Store(at, pieces[n]));
      LastStore(es, at, pieces);
    }
  }

  lemma {:induction false} LastStore<L, V>(es: seq<Event<L, V>>, at: L, pieces: seq<V>)
    requires pieces != []
    ensures var n := |pieces| - 1;
            es + Stores(at, pieces) == es + Stores(at, pieces[..n]) + [Store(at, pieces[n])]
  {
  }

  lemma {:induction false} InOrder<V>(s: set<V>) returns (pieces: seq<V>)
    ensures Values(pieces) == s
    decreases |s|
  {
    if s == {} {
      pieces := [];
    } else {
      var x :| x in s;
      var rest := InOrder(s - {x});
      pieces := rest + [x];
      assert Values(pieces) == Values(rest) + {x};
    }
  }

  /** Cells that have come about for the words of `done`, on a device where all others are as they
      were at the start. */
  ghost predicate Reached<L, V>(d: Device<L, V>, es: seq<Event<L, V>>, cells: imap<L, Cell<V>>, done: set<L>) {
    && d.Valid() && d.cached == d.medium == Latest(cells) && Addresses(d, es)
    && forall l | l in cells :: Cells(d, es)[l] == if l in done then cells[l] else Durable(cells[l].now)
  }

  lemma {:induction false} ReachOneMore<L, V>(d: Device<L, V>, es: seq<Event<L, V>>, cells: imap<L, Cell<V>>,
        done: set<L>, at: L) returns (es': seq<Event<L, V>>)
    requires Reached(d, es, cells, done) && at in cells && at !in done && cells[at].now in cells[at].may
    ensures Reached(d, es', cells, done + {at})
  {
    var pieces := InOrder(cells[at].may);
    pieces := pieces + [cells[at].now];
    es' := es + Stores(at, pieces);
    StoresAppended(d, es, at, pieces);
    StoreAllIs(Cells(d, es), at, pieces);
    assert {cells[at].now} + Values(pieces) == cells[at].may;
  }

  lemma {:induction false} ReachAll<L, V>(cells: imap<L, Cell<V>>, done: set<L>)
    returns (d: Device<L, V>, es: seq<Event<L, V>>)
    requires forall l | l in cells :: cells[l].now in cells[l].may
    requires forall l | l in done :: l in cells
    ensures Reached(d, es, cells, done)
    decreases |done|
  {
    if done == {} {
      d, es := Device(Latest(cells), Latest(cells)), [];
      forall l | l in cells ensures Cells(d, es)[l] == Durable(cells[l].now) {
        assert {cells[l].now, cells[l].now} == {cells[l].now};
      }
    } else {
      var at :| at in done;
      d, es := ReachAll(cells, done - {at});
      es := ReachOneMore(d, es, cells, done - {at}, at);
      assert done - {at} + {at} == done;
    }
  }

  /** The addresses of a heap, which are finitely many. */
  ghost function Addrs(h: Heap): (r: set<Addr>)
    ensures forall a :: a in r <==> IsWord(h, a)
  {
    (set id | id in h && HasPtr(h[id]) :: PtrWord(id))
    + (set id | id in h && HasCount(h[id]) :: CountWord(id))
    + (set id, i | id in h && h[id].VectorBlock? && 0 <= i < |h[id].slots| :: SlotWord(id, i))
  }

  ghost function ElemAddrs(h: Heap): (r: set<ElemAddr>)
    ensures forall a :: a in r <==> IsElemAt(h, a)
  {
    set id, i | id in h && h[id].PodBlock? && 0 <= i < |h[id].elems| :: ElemAddr(id, i)
  }

  /** Whatever allocations and releases have led to it, every heap is one that stores and persists
      through a cache can make. */
  lemma {:induction false} EveryHeapHasDevice(h: Heap)
    returns (d: Device<Addr, nat>, es: seq<Event<Addr, nat>>,
             de: Device<ElemAddr, Blob>, ees: seq<Event<ElemAddr, Blob>>)
    ensures d.Valid() && Addresses(d, es) && Words(h) == Cells(d, es)
    ensures de.Valid() && Addresses(de, ees) && Elems(h) == Cells(de, ees)
  {
    d, es := ReachAll(Words(h), Addrs(h));
    SameCells(Words(h), Cells(d, es));
    de, ees := ReachAll(Elems(h), ElemAddrs(h));
    SameCells(Elems(h), Cells(de, ees));
  }

  /** And when the words and elements have come about by these events, what a power cut can leave is
      exactly what some schedule of write-backs leaves on the two media. */
  lemma {:induction false} CutsAreSchedules(h: Heap, h': Heap, d: Device<Addr, nat>, es: seq<Event<Addr, nat>>,
        de: Device<ElemAddr, Blob>, ees: seq<Event<ElemAddr, Blob>>)
    requires d.Valid() && Addresses(d, es) && Words(h) == Cells(d, es)
    requires de.Valid() && Addresses(de, ees) && Elems(h) == Cells(de, ees)
    ensures CrashImage(h, h') <==>
            && Reopens(h, h')
            && SomeScheduleLeaves(d, es, Latest(Words(h'))) && SomeScheduleLeaves(de, ees, Latest(Elems(h')))
  {
    hide Words, Elems, Latest, Cells, Allowed, SomeScheduleLeaves, Reopens, CrashImage, Addresses;
    ImageIffAllowed(h, h');
    MaySetsAreExact(d, es, Latest(Words(h')));
    MaySetsAreExact(de, ees, Latest(Elems(h')));
  }

  /** So `CrashImage` is what a cache does, in every heap. */
  lemma {:induction false} EveryHeapIsBehindACache(h: Heap)
    returns (d: Device<Addr, nat>, es: seq<Event<Addr, nat>>,
             de: Device<ElemAddr, Blob>, ees: seq<Event<ElemAddr, Blob>>)
    ensures d.Valid() && Addresses(d, es) && de.Valid() && Addresses(de, ees)
    ensures Words(h) == Cells(d, es) && Elems(h) == Cells(de, ees)
    ensures forall h' :: CrashImage(h, h') <==>
              && Reopens(h, h')
              && SomeScheduleLeaves(d, es, Latest(Words(h'))) && SomeScheduleLeaves(de, ees, Latest(Elems(h')))
  {
    d, es, de, ees := EveryHeapHasDevice(h);
    forall h'
      ensures CrashImage(h, h') <==>
                && Reopens(h, h')
                && SomeScheduleLeaves(d, es, Latest(Words(h'))) && SomeScheduleLeaves(de, ees, Latest(Elems(h')))
    {
      CutsAreSchedules(h, h', d, es, de, ees);
    }
  }
}
