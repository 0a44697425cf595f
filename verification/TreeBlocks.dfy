/** What a power cut inside an insertion leaves of the entries; every id once; two blocks for each
    node. */
module TreeBlocks {
  import opened Pmem
  import opened TreeSpec
  import opened TreeFacts
  import opened TreeHeap

  // ----- entries after a power cut -----

  /** A power cut at any step of an accepted insertion recovers a tree whose entries are the old
      ones, or the old ones and the complete new one. */
  lemma {:induction false} InsertionIsCrashAtomic(h0: Heap, h: Heap, h': Heap, t: Tree, p: Path, blob: Blob,
        ids: seq<Oid>)
    requires WellFormed(t) && |ids| == |p| && Insert(t, p, blob, ids).Inserted?
    requires TreeStep(h0, h, t, Insert(t, p, blob, ids).tree) && CrashImage(h, h')
    ensures exists found :: Repr(h', found) && found.id == t.id && WellFormed(found)
              && (Entries(found) == Entries(t) || Spliced(Entries(t), Entries(found), [Entry(p, ids[|p| - 1], blob)]))
  {
    InsertAddsOneEntry(t, p, blob, ids);
    var t' := Insert(t, p, blob, ids).tree;
    assert Recovers(h0, t, h', t) || Recovers(h0, t, h', t');
    if Recovers(h0, t, h', t) {
      assert Repr(h', t);
    } else {
      assert Repr(h', t');
    }
  }

  // ----- every id once -----

  lemma {:induction false} EntryIsOnOwnBlock(h: Heap, t: Tree, e: Entry)
    requires e in Entries(t)
    ensures e.id in Foot(h, t)
    decreases t
  {
    if t.Node? {
      var j, f := EntryComesFromKid(t.key, t.kids, e);
      EntryIsOnOwnBlock(h, t.kids[j], f);
      KidFoot(h, t, j);
    }
  }

  ghost predicate DifferentIds(es: seq<Entry>) { forall i, j | 0 <= i < j < |es| :: es[i].id != es[j].id }

  /** The entries of a tree in the heap are on leaves of their own. */
  lemma {:induction false} EntryIdsDiffer(h: Heap, t: Tree)
    requires Repr(h, t)
    ensures DifferentIds(Entries(t))
    decreases t, 1
  {
    if t.Node? {
      KidsAreForest(h, t);
      EntryIdsDifferOf(h, t.key, t.kids);
    }
  }

  lemma {:induction false} EntryIdsDifferOf(h: Heap, key: Name, kids: seq<Tree>)
    requires Forest(h, kids)
    ensures DifferentIds(EntriesOf(key, kids))
    decreases kids, 0
  {
    if kids != [] {
      var es, rest := Entries(kids[0]), EntriesOf(key, kids[1..]);
      RestIsForest(h, kids);
      EntryIdsDiffer(h, kids[0]);
      EntryIdsDifferOf(h, key, kids[1..]);
      forall i, j | 0 <= i < |es| && 0 <= j < |rest| ensures es[i].id != rest[j].id {
        EntryIsOnOwnBlock(h, kids[0], es[i]);
        var m, f := EntryComesFromKid(key, kids[1..], rest[j]);
        EntryIsOnOwnBlock(h, kids[1..][m], f);
        assert Foot(h, kids[0]) !! Foot(h, kids[m + 1]);
      }
    }
  }

  lemma {:induction false} MatchingOnce(es: seq<Entry>, request: Dict)
    requires DifferentIds(es)
    ensures Once(Matching(es, request))
    ensures forall x | x in Matching(es, request) :: exists i :: 0 <= i < |es| && es[i].id == x
    decreases |es|
  {
    if es != [] {
      MatchingOnce(es[1..], request);
      forall x | x in Matching(es[1..], request) ensures x != es[0].id && exists i :: 0 <= i < |es| && es[i].id == x {
        var i :| 0 <= i < |es[1..]| && es[1..][i].id == x;
        assert es[i + 1].id == x;
      }
      var rest := Matching(es[1..], request);
      forall i, j | 0 <= i < j < |[es[0].id] + rest| ensures ([es[0].id] + rest)[i] != ([es[0].id] + rest)[j] {
        assert rest[j - 1] in rest;
      }
      assert [] + rest == rest;
    }
  }

  /** A query names no leaf twice. */
  lemma {:induction false} LookupOnce(h: Heap, t: Tree, request: Dict)
    requires Repr(h, t) && t.Node?
    ensures Once(Lookup(t, request))
  {
    EntryIdsDiffer(h, t);
    LookupIsFilter(t, request);
    MatchingOnce(Entries(t), request);
  }

  // ----- counting blocks -----

  function NodeCount(t: Tree): nat
    decreases t, 1
  {
    1 + if t.Leaf? then 0 else NodesOf(t.kids)
  }

  function NodesOf(kids: seq<Tree>): nat
    decreases kids, 0
  {
    if kids == [] then 0 else NodeCount(kids[0]) + NodesOf(kids[1..])
  }

  ghost function FeetOf(h: Heap, kids: seq<Tree>): set<Oid> {
    set i, x | 0 <= i < |kids| && x in Foot(h, kids[i]) :: x
  }

  lemma {:induction false} DisjointSize<T>(a: set<T>, b: set<T>)
    requires a !! b
    ensures |a + b| == |a| + |b|
  {
  }

  /** Every node of a tree owns exactly two blocks: an interior node its slot array, a leaf its
      buffer. With `Exchanged`, an insertion therefore leaks nothing. */
  lemma {:induction false} TwoBlocksPerNode(h: Heap, t: Tree)
    requires Repr(h, t) && WellFormed(t)
    ensures |Foot(h, t)| == 2 * NodeCount(t)
    decreases t, 1
  {
    OwnTwo(h, t);
    if t.Leaf? {
      assert Foot(h, t) == Own(h, t.id);
    } else {
      KidsAreForest(h, t);
      TwoBlocksPerNodeOf(h, t.kids);
      FootIsOwnAndFeet(h, t);
      DisjointSize(Own(h, t.id), FeetOf(h, t.kids));
    }
  }

  lemma {:induction false} OwnTwo(h: Heap, t: Tree)
    requires NodeRepr(h, t) && (t.Node? ==> t.kids != [])
    ensures |Own(h, t.id)| == 2
  {
    var own := h[t.id];
    if t.Leaf? {
      assert own.data != t.id && Own(h, t.id) == {t.id, own.data};
    } else {
      assert |IdsOf(t.kids)| > 0;
      assert own.ptr.now != t.id && Own(h, t.id) == {t.id, own.ptr.now};
    }
  }

  lemma {:induction false} FootIsOwnAndFeet(h: Heap, t: Tree)
    requires t.Node? && Unshared(h, t)
    ensures Foot(h, t) == Own(h, t.id) + FeetOf(h, t.kids)
    ensures Own(h, t.id) !! FeetOf(h, t.kids)
  {
  }

  lemma {:induction false} TwoBlocksPerNodeOf(h: Heap, kids: seq<Tree>)
    requires Forest(h, kids) && forall i | 0 <= i < |kids| :: WellFormed(kids[i])
    ensures |FeetOf(h, kids)| == 2 * NodesOf(kids)
    decreases kids, 0
  {
    if kids == [] {
      assert FeetOf(h, kids) == {};
    } else {
      var rest := kids[1..];
      RestIsForest(h, kids);
      TwoBlocksPerNode(h, kids[0]);
      TwoBlocksPerNodeOf(h, rest);
      FeetSplit(h, kids);
      DisjointSize(Foot(h, kids[0]), FeetOf(h, rest));
    }
  }

  lemma {:induction false} RestIsForest(h: Heap, kids: seq<Tree>)
    requires Forest(h, kids) && kids != []
    ensures Forest(h, kids[1..])
  {
    var rest := kids[1..];
    forall j, k | 0 <= j < k < |rest| ensures Foot(h, rest[j]) !! Foot(h, rest[k]) {
      assert Foot(h, kids[j + 1]) !! Foot(h, kids[k + 1]);
    }
  }

  lemma {:induction false} FeetSplit(h: Heap, kids: seq<Tree>)
    requires kids != [] && Forest(h, kids)
    ensures FeetOf(h, kids) == Foot(h, kids[0]) + FeetOf(h, kids[1..])
    ensures Foot(h, kids[0]) !! FeetOf(h, kids[1..])
  {
    var rest := kids[1..];
    forall x | x in FeetOf(h, kids) ensures x in Foot(h, kids[0]) + FeetOf(h, rest) {
      var i :| 0 <= i < |kids| && x in Foot(h, kids[i]);
      if i > 0 { assert rest[i - 1] == kids[i]; }
    }
    forall x | x in FeetOf(h, rest) ensures x in FeetOf(h, kids) && x !in Foot(h, kids[0]) {
      var i :| 0 <= i < |rest| && x in Foot(h, rest[i]);
      assert kids[i + 1] == rest[i] && Foot(h, kids[0]) !! Foot(h, kids[i + 1]);
    }
  }
}
