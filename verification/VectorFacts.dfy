/** Exact conditions: block sizes in machine arithmetic, durability of construction, and the
    two words of a slot. */
module VectorFacts {
  import opened Pmem
  import opened PersistentPtr
  import opened VectorSpec
  import opened PersistentVector

  // ----- sizes, in the machine's arithmetic -----

  const WORD_LIMIT := 0x1_0000_0000_0000_0000
  const SLOT_BYTES := 16
  const HEADER_BYTES := 16

  /** `data_size`: sizeof of the declared block (header and one slot) plus the other slots, in
      unsigned 64-bit arithmetic. */
  function DataSizeBytes(maxSize: nat): (r: nat)
    ensures r < WORD_LIMIT
  {
    ((HEADER_BYTES + SLOT_BYTES) + ((maxSize - 1) % WORD_LIMIT) * SLOT_BYTES % WORD_LIMIT) % WORD_LIMIT
  }

  /** The size asked for is the size needed exactly up to 2^60 - 2 slots. */
  lemma {:induction false} SizeIsExact(maxSize: nat)
    requires maxSize < WORD_LIMIT
    ensures DataSizeBytes(maxSize) == HEADER_BYTES + SLOT_BYTES * maxSize <==> maxSize <= 0x1000_0000_0000_0000 - 2
  {
  }

  /** Then every slot the operations touch lies inside the block. */
  lemma {:induction false} SlotsAreInside(maxSize: nat, i: nat)
    requires i < maxSize <= 0x1000_0000_0000_0000 - 2
    ensures HEADER_BYTES + SLOT_BYTES * i + SLOT_BYTES <= DataSizeBytes(maxSize)
  {
    SizeIsExact(maxSize);
  }

  // ----- why construction must be durable before publication -----

  /** What the constructor callback leaves: it persists when the build reports failure. */
  function PmemConstructor(built: Block, ret: int): Block {
    if ret != 0 then Flushed(built) else built
  }

  /** The block reads as `kids`, whatever has reached the medium. */
  ghost predicate ReadsAs(b: Block, kids: seq<Oid>) {
    && b.VectorBlock? && b.cap == |b.slots| && 1 <= b.cap && |kids| <= b.cap && b.nelem.now == |kids|
    && (forall i | 0 <= i < |kids| :: kids[i] != NULL && b.slots[i].now == kids[i])
    && (forall i | |kids| <= i < b.cap :: b.slots[i].now == NULL)
  }

  /** No slot is in flight, and the counter at most one behind. */
  ghost predicate Landed(b: Block, kids: seq<Oid>)
    requires b.VectorBlock?
  {
    (forall i | 0 <= i < |b.slots| :: Settled(b.slots[i]))
    && forall m | m in b.nelem.may :: |kids| - 1 <= m <= |kids|
  }

  /** A published block survives every power cut exactly when its contents have landed. */
  lemma {:induction false} PublishedSurvivesIff(h: Heap, owner: Oid, kids: seq<Oid>)
    requires owner in h && HasPtr(h[owner]) && Settled(h[owner].ptr)
    requires DataOf(h, owner) != NULL && DataOf(h, owner) in h && ReadsAs(h[DataOf(h, owner)], kids)
    ensures (forall h' | CrashImage(h, h') :: VecRepr(h', owner, kids)) <==> Landed(h[DataOf(h, owner)], kids)
  {
    var v := DataOf(h, owner);
    var b := h[v];
    if Landed(b, kids) {
      forall h' | CrashImage(h, h') ensures VecRepr(h', owner, kids) {
        FixedBlockImage(h[owner], h'[owner]);
        assert BlockImage(b, h'[v]);
      }
    } else {
      var b' := BadImage(b, kids);
      ImageWithIsImage(h, v, b');
      var h' := ImageWith(h, v, b');
      assert h'[owner].ptr == h[owner].ptr;
      assert !VecRepr(h', owner, kids);
    }
  }

  lemma {:induction false} BadImage(b: Block, kids: seq<Oid>) returns (b': Block)
    requires ReadsAs(b, kids) && !Landed(b, kids)
    ensures BlockImage(b, b') && !VecOk(b', kids)
  {
    if i :| 0 <= i < |b.slots| && !Settled(b.slots[i]) {
      var x :| x in b.slots[i].may && x != b.slots[i].now;
      b' := VectorBlock(b.cap, Persisted(b.nelem), Flushed(b).slots[i := Durable(x)]);
      assert b'.slots[i] == Durable(x);
    } else {
      var m :| m in b.nelem.may && !(|kids| - 1 <= m <= |kids|);
      b' := VectorBlock(b.cap, Durable(m), Flushed(b).slots);
    }
  }

  /** What a constructor writes over the memory it is given: the count, the elements, nulls
      behind them. Every word is a plain store over whatever was there. */
  ghost function Laid(prior: seq<Word>, priorCount: Word, kids: seq<Oid>): Block {
    VectorBlock(|prior|, Stored(priorCount, |kids|),
                seq(|prior|, i requires 0 <= i < |prior| => Stored(prior[i], SlotOf(kids, i).now)))
  }

  /** It is the block that both constructors build, but for what has reached the medium. */
  lemma {:induction false} LaidIsTheBlock(prior: seq<Word>, priorCount: Word, kids: seq<Oid>)
    requires |kids| <= |prior|
    ensures Flushed(Laid(prior, priorCount, kids)) == BlockOf(kids, |prior|)
  {
    assert Flushed(Laid(prior, priorCount, kids)).slots == BlockOf(kids, |prior|).slots;
  }

  /** The memory already held what the constructor is about to write, up to a count that is one
      behind. */
  ghost predicate AlreadyThere(prior: seq<Word>, priorCount: Word, kids: seq<Oid>) {
    (forall i | 0 <= i < |prior| :: prior[i].may == {SlotOf(kids, i).now})
    && forall m | m in priorCount.may :: |kids| - 1 <= m <= |kids|
  }

  /** After the callback the block has landed exactly when the build has failed, or the memory
      already held it. */
  lemma {:induction false} LandedIff(prior: seq<Word>, priorCount: Word, kids: seq<Oid>, ret: int)
    ensures Landed(PmemConstructor(Laid(prior, priorCount, kids), ret), kids)
            <==> ret != 0 || AlreadyThere(prior, priorCount, kids)
  {
    var built := Laid(prior, priorCount, kids);
    if ret == 0 {
      assert |kids| in built.nelem.may;
      forall i | 0 <= i < |prior|
        ensures Settled(built.slots[i]) <==> prior[i].may == {SlotOf(kids, i).now}
      {
        SettledIff(prior[i], SlotOf(kids, i).now);
      }
    }
  }

  lemma {:induction false} SettledIff(c: Word, v: nat)
    ensures Settled(Stored(c, v)) <==> c.may == {v}
  {
    if Settled(Stored(c, v)) {
      assert forall m | m in c.may :: m in Stored(c, v).may;
      assert c.now in c.may;
    }
  }

  /** For every memory a block can be built in: once the callback has returned `ret` and the
      block is published, it survives every power cut exactly when the build had failed, or the
      memory already held what was written. So a build that succeeds makes nothing durable. */
  lemma {:induction false} BuiltSurvivesIff(h: Heap, owner: Oid, prior: seq<Word>, priorCount: Word,
        kids: seq<Oid>, ret: int)
    requires owner in h && HasPtr(h[owner]) && Settled(h[owner].ptr)
    requires |kids| < |prior| && NULL !in kids
    requires DataOf(h, owner) != NULL && DataOf(h, owner) in h
    requires h[DataOf(h, owner)] == PmemConstructor(Laid(prior, priorCount, kids), ret)
    ensures (forall h' | CrashImage(h, h') :: VecRepr(h', owner, kids))
            <==> ret != 0 || AlreadyThere(prior, priorCount, kids)
  {
    var b := h[DataOf(h, owner)];
    forall i | 0 <= i < |kids| ensures kids[i] != NULL {
      assert kids[i] in kids;
    }
    assert ReadsAs(b, kids);
    PublishedSurvivesIff(h, owner, kids);
    LandedIff(prior, priorCount, kids, ret);
  }

  /** Memory full of zeroes, as a new pool has it. */
  function Zeroes(n: nat): seq<Word> { seq(n, _ => Durable(0)) }

  /** In zeroed memory a successful build lands only if there was nothing to copy: every copy that
      a growing vector makes of its elements can be lost after it has been published. */
  lemma {:induction false} CopyIsNotPersisted(n: nat, kids: seq<Oid>)
    requires |kids| < n && NULL !in kids
    ensures Landed(PmemConstructor(Laid(Zeroes(n), Durable(0), kids), 0), kids) <==> kids == []
    ensures Landed(PmemConstructor(Laid(Zeroes(n), Durable(0), kids), 1), kids)
  {
    LandedIff(Zeroes(n), Durable(0), kids, 0);
    LandedIff(Zeroes(n), Durable(0), kids, 1);
    if kids != [] {
      assert kids[0] in kids;
      assert Zeroes(n)[0].may != {SlotOf(kids, 0).now};
    }
  }

  // ----- when a slot may be taken as one word -----

  /** A power cut between the two stores of an object id (pool word u, offset o) can find this. */
  ghost predicate SlotImage(pool: Word, offset: Word, u: nat, o: nat, a: nat, b: nat) {
    a in Stored(pool, u).may && b in Stored(offset, o).may
  }

  /** An object id is two words, stored plainly over a null slot, and a slot counts as null by its
      offset alone. Every power cut finds null or the whole id if and only if the pool word of the
      slot already held the id's own, on the medium, before the store. */
  lemma {:induction false} SlotStoreIsWholeIff(pool: Word, offset: Word, u: nat, o: nat)
    requires u != 0 && o != 0 && offset == Durable(0)
    ensures (forall a, b | SlotImage(pool, offset, u, o, a, b) :: b == 0 || (a == u && b == o)) <==> pool.may == {u}
  {
    if pool.may != {u} {
      assert pool.now in pool.may;
      var a :| a in pool.may && a != u;
      assert SlotImage(pool, offset, u, o, a, o);
    }
  }

  /** A slot as the constructors leave it has both words zero. So whatever id is stored there, some
      power cut finds a slot that does not count as null and names another pool. */
  lemma {:induction false} NullSlotCanTear(u: nat, o: nat)
    requires u != 0 && o != 0
    ensures exists a, b :: SlotImage(Durable(0), Durable(0), u, o, a, b) && b != 0 && a != u
  {
    assert SlotImage(Durable(0), Durable(0), u, o, 0, o);
  }
}
