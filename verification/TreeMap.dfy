/** A tree built over a schema is a finite map from dictionaries to blobs. */
module TreeMap {
  import opened Pmem
  import opened PersistentPtr
  import opened TreeSpec
  import opened TreeFacts
  import opened TreeSchema

  // ----- trees over a schema -----

  /** Every path from here follows `keys`, and ends in a leaf at depth |keys|. */
  ghost predicate ByKeys(t: Tree, keys: seq<Name>)
    decreases t
  {
    match t
    case Leaf(_, _, _) => keys == []
    case Node(_, key, _, kids) =>
      keys != [] && key == keys[0] && forall i | 0 <= i < |kids| :: ByKeys(kids[i], keys[1..])
  }

  ghost predicate HasKeys(p: Path, keys: seq<Name>) {
    |p| == |keys| && forall i | 0 <= i < |p| :: p[i].key == keys[i]
  }

  lemma {:induction false} ChainByKeys(value: Name, p: Path, blob: Blob, ids: seq<Oid>, keys: seq<Name>)
    requires |ids| == |p| + 1 && HasKeys(p, keys)
    ensures ByKeys(Chain(value, p, blob, ids), keys)
    decreases |p|
  {
    if p != [] {
      ChainByKeys(p[0].value, p[1..], blob, ids[1..], keys[1..]);
    }
  }

  lemma {:induction false} InsertByKeys(t: Tree, p: Path, blob: Blob, ids: seq<Oid>, keys: seq<Name>)
    requires |ids| == |p| && HasKeys(p, keys) && ByKeys(t, keys) && Insert(t, p, blob, ids).Inserted?
    ensures ByKeys(Insert(t, p, blob, ids).tree, keys)
    decreases t
  {
    var i := Find(t.kids, p[0].value);
    if i == |t.kids| {
      ChainByKeys(p[0].value, p[1..], blob, ids, keys[1..]);
    } else {
      InsertByKeys(t.kids[i], p[1..], blob, ids[1..], keys[1..]);
    }
  }

  lemma {:induction false} EntriesHaveKeys(t: Tree, keys: seq<Name>)
    requires ByKeys(t, keys)
    ensures forall e | e in Entries(t) :: HasKeys(e.path, keys)
    decreases t
  {
    if t.Node? {
      forall e | e in Entries(t) ensures HasKeys(e.path, keys) {
        var j, f := EntryComesFromKid(t.key, t.kids, e);
        EntriesHaveKeys(t.kids[j], keys[1..]);
      }
    }
  }

  // ----- dictionaries and paths -----

  function DictOf(p: Path): Dict {
    if p == [] then map[] else DictOf(p[1..])[p[0].key := p[0].value]
  }

  lemma {:induction false} DictOfPath(keys: seq<Name>, p: Path)
    requires Distinct(keys) && HasKeys(p, keys)
    ensures DictOf(p).Keys == KeySet(keys)
    ensures forall i | 0 <= i < |p| :: DictOf(p)[p[i].key] == p[i].value
    decreases |p|
  {
    if p != [] {
      DictOfPath(keys[1..], p[1..]);
      assert keys == [keys[0]] + keys[1..];
      assert KeySet(keys) == KeySet(keys[1..]) + {keys[0]};
      forall i | 0 <= i < |p| ensures DictOf(p)[p[i].key] == p[i].value {
        if i > 0 { assert p[i] == p[1..][i - 1]; }
      }
    }
  }

  /** Laying a dictionary out and reading it back. */
  lemma {:induction false} DictRoundTrip(keys: seq<Name>, d: Dict)
    requires Distinct(keys) && d.Keys == KeySet(keys)
    ensures HasKeys(PathOf(keys, d), keys) && DictOf(PathOf(keys, d)) == d
  {
    var p := PathOf(keys, d);
    DictOfPath(keys, p);
    forall k | k in d ensures DictOf(p)[k] == d[k] {
      var i :| 0 <= i < |keys| && keys[i] == k;
      assert p[i].key == k;
    }
  }

  lemma {:induction false} SameDictSamePath(keys: seq<Name>, p: Path, q: Path)
    requires Distinct(keys) && HasKeys(p, keys) && HasKeys(q, keys)
    ensures DictOf(p) == DictOf(q) <==> p == q
  {
    DictOfPath(keys, p);
    DictOfPath(keys, q);
    if DictOf(p) == DictOf(q) {
      forall i | 0 <= i < |p| ensures p[i] == q[i] {
        assert DictOf(p)[p[i].key] == DictOf(q)[q[i].key];
      }
    }
  }

  /** Over one schema, to branch is to differ. */
  lemma {:induction false} BranchesIffDifferent(keys: seq<Name>, p: Path, q: Path)
    requires HasKeys(p, keys) && HasKeys(q, keys)
    ensures Branches(p, q) <==> p != q
    decreases |p|
  {
    BranchesStep(p, q);
    if p != [] {
      BranchesIffDifferent(keys[1..], p[1..], q[1..]);
      assert p == [p[0]] + p[1..] && q == [q[0]] + q[1..];
    }
  }

  // ----- the map -----

  function Table(es: seq<Entry>): map<Dict, Blob> {
    if es == [] then map[] else Table(es[1..])[DictOf(es[0].path) := es[0].blob]
  }

  lemma {:induction false} TableKeys(es: seq<Entry>, d: Dict)
    ensures d in Table(es) <==> exists e :: e in es && DictOf(e.path) == d
    decreases |es|
  {
    if es != [] {
      TableKeys(es[1..], d);
      assert es == [es[0]] + es[1..];
    }
  }

  lemma PutAfter<K, V>(m: map<K, V>, n: map<K, V>, k: K, v: V)
    ensures (m + n)[k := v] == m + n[k := v]
  {
  }

  lemma {:induction false} TableConcat(a: seq<Entry>, b: seq<Entry>)
    ensures Table(a + b) == Table(b) + Table(a)
    decreases |a|
  {
    if a == [] {
      assert a + b == b;
    } else {
      assert (a + b)[1..] == a[1..] + b && (a + b)[0] == a[0];
      TableConcat(a[1..], b);
      PutAfter(Table(b), Table(a[1..]), DictOf(a[0].path), a[0].blob);
    }
  }

  lemma PutBefore<K, V>(m: map<K, V>, n: map<K, V>, k: K, v: V)
    requires k !in n
    ensures m + (map[k := v] + n) == (m + n)[k := v]
  {
  }

  lemma {:induction false} TableOfOne(e: Entry)
    ensures Table([e]) == map[DictOf(e.path) := e.blob]
  {
    assert [e][1..] == [];
  }

  lemma {:induction false} TableInsert(a: seq<Entry>, b: seq<Entry>, e: Entry)
    requires DictOf(e.path) !in Table(a + b)
    ensures Table(a + [e] + b) == Table(a + b)[DictOf(e.path) := e.blob]
  {
    TableConcat(a, b);
    TableConcat(a + [e], b);
    TableConcat(a, [e]);
    TableOfOne(e);
    PutBefore(Table(b), Table(a), DictOf(e.path), e.blob);
  }

  lemma {:induction false} TableOfOneMore(es: seq<Entry>, es': seq<Entry>, e: Entry)
    requires Spliced(es, es', [e]) && DictOf(e.path) !in Table(es)
    ensures Table(es') == Table(es)[DictOf(e.path) := e.blob]
  {
    var k :| 0 <= k <= |es| && es' == es[..k] + [e] + es[k..];
    assert es == es[..k] + es[k..];
    TableInsert(es[..k], es[k..], e);
  }

  /** Over a schema, the only reason to refuse is that the dictionary is already there. */
  lemma {:induction false} RefusedIffPresent(t: Tree, keys: seq<Name>, d: Dict, blob: Blob, ids: seq<Oid>)
    requires WellFormed(t) && t.Node? && Distinct(keys) && ByKeys(t, keys) && d.Keys == KeySet(keys)
    requires |ids| == |keys|
    ensures var r := Insert(t, PathOf(keys, d), blob, ids);
            (r.Refused? <==> d in Table(Entries(t))) && (r.Refused? ==> r.why == LeafExists)
  {
    var p, es := PathOf(keys, d), Entries(t);
    EntriesHaveKeys(t, keys);
    forall e | e in es ensures BranchesAgainst(p, e.path, d) {
      EntryAgainst(keys, d, e.path);
    }
    TableKeys(es, d);
    AcceptedIff(t, p, blob, ids);
    LeafExistsIff(t, p, blob, ids);
  }

  ghost predicate BranchesAgainst(p: Path, q: Path, d: Dict) {
    && (Branches(p, q) <==> DictOf(q) != d)
    && (q <= p <==> DictOf(q) == d)
  }

  lemma {:induction false} EntryAgainst(keys: seq<Name>, d: Dict, q: Path)
    requires Distinct(keys) && d.Keys == KeySet(keys) && HasKeys(q, keys)
    ensures BranchesAgainst(PathOf(keys, d), q, d)
  {
    DictRoundTrip(keys, d);
    BranchesIffDifferent(keys, PathOf(keys, d), q);
    SameDictSamePath(keys, PathOf(keys, d), q);
  }

  /** And what is accepted is a map update. */
  lemma {:induction false} InsertIsMapUpdate(t: Tree, keys: seq<Name>, d: Dict, blob: Blob, ids: seq<Oid>)
    requires WellFormed(t) && t.Node? && Distinct(keys) && ByKeys(t, keys) && d.Keys == KeySet(keys)
    requires |ids| == |keys| && Insert(t, PathOf(keys, d), blob, ids).Inserted?
    ensures var t' := Insert(t, PathOf(keys, d), blob, ids).tree;
            && Table(Entries(t')) == Table(Entries(t))[d := blob]
            && WellFormed(t') && t'.Node? && ByKeys(t', keys)
  {
    var p := PathOf(keys, d);
    RefusedIffPresent(t, keys, d, blob, ids);
    DictRoundTrip(keys, d);
    InsertAddsOneEntry(t, p, blob, ids);
    TableOfOneMore(Entries(t), Entries(Insert(t, p, blob, ids).tree), Entry(p, ids[|p| - 1], blob));
    InsertByKeys(t, p, blob, ids, keys);
  }

  /** The first insertion makes a map with one entry. */
  lemma {:induction false} ChainIsSingletonMap(value: Name, keys: seq<Name>, d: Dict, blob: Blob, ids: seq<Oid>)
    requires keys != [] && Distinct(keys) && d.Keys == KeySet(keys) && |ids| == |keys| + 1
    ensures var t := Chain(value, PathOf(keys, d), blob, ids);
            Table(Entries(t)) == map[d := blob] && WellFormed(t) && t.Node? && ByKeys(t, keys)
  {
    var p := PathOf(keys, d);
    DictRoundTrip(keys, d);
    ChainHasOneEntry(value, p, blob, ids);
    ChainByKeys(value, p, blob, ids, keys);
    TableInsert([], [], Entry(p, ids[|p|], blob));
    assert [] + [Entry(p, ids[|p|], blob)] + [] == [Entry(p, ids[|p|], blob)];
  }

  // ----- queries by dictionary -----

  /** A stored path agrees with a request exactly when its dictionary does. */
  lemma {:induction false} AgreesIffDict(keys: seq<Name>, p: Path, request: Dict)
    requires Distinct(keys) && HasKeys(p, keys)
    ensures Agrees(p, request) <==> forall k | k in request && k in DictOf(p) :: request[k] == DictOf(p)[k]
  {
    DictOfPath(keys, p);
    if Agrees(p, request) {
      forall k | k in request && k in DictOf(p) ensures request[k] == DictOf(p)[k] {
        var i :| 0 <= i < |keys| && keys[i] == k;
        assert p[i].key == k;
      }
    }
    if forall k | k in request && k in DictOf(p) :: request[k] == DictOf(p)[k] {
      forall i | 0 <= i < |p| && p[i].key in request ensures request[p[i].key] == p[i].value {
        assert keys[i] in KeySet(keys);
      }
    }
  }

  /** A query that names every key finds the one entry of that dictionary, or nothing. */
  lemma {:induction false} FullLookup(t: Tree, keys: seq<Name>, d: Dict)
    requires WellFormed(t) && t.Node? && Distinct(keys) && ByKeys(t, keys) && d.Keys == KeySet(keys)
    ensures d !in Table(Entries(t)) ==> Lookup(t, d) == []
    ensures d in Table(Entries(t)) ==>
              exists e :: e in Entries(t) && DictOf(e.path) == d && e.blob == Table(Entries(t))[d]
                          && Lookup(t, d) == [e.id]
  {
    var es := Entries(t);
    LookupIsFilter(t, d);
    StoredPathsBranch(t);
    EntriesHaveKeys(t, keys);
    forall e | e in es ensures Agrees(e.path, d) <==> DictOf(e.path) == d {
      AgreesIffDict(keys, e.path, d);
      DictOfPath(keys, e.path);
    }
    forall i, j | 0 <= i < j < |es| ensures DictOf(es[i].path) != DictOf(es[j].path) {
      BranchesIffDifferent(keys, es[i].path, es[j].path);
      SameDictSamePath(keys, es[i].path, es[j].path);
    }
    OneMatch(es, d);
  }

  lemma {:induction false} OneMatch(es: seq<Entry>, d: Dict)
    requires forall e | e in es :: Agrees(e.path, d) <==> DictOf(e.path) == d
    requires forall i, j | 0 <= i < j < |es| :: DictOf(es[i].path) != DictOf(es[j].path)
    ensures d !in Table(es) ==> Matching(es, d) == []
    ensures d in Table(es) ==>
              exists e :: e in es && DictOf(e.path) == d && e.blob == Table(es)[d] && Matching(es, d) == [e.id]
    decreases |es|
  {
    if es != [] {
      OneMatch(es[1..], d);
      assert es[0] in es;
      forall e | e in es[1..] ensures DictOf(e.path) != DictOf(es[0].path) {
        var j :| 0 <= j < |es| - 1 && es[1..][j] == e;
        assert es[j + 1] == e;
      }
      TableKeys(es[1..], d);
    }
  }
}
