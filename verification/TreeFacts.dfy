/** Insertions and queries against the flat list of entries. */
module TreeFacts {
  import opened Pmem
  import opened PersistentPtr
  import opened TreeSpec

  // ----- entries of a node -----

  lemma {:induction false} EntriesOfConcat(key: Name, a: seq<Tree>, b: seq<Tree>)
    ensures EntriesOf(key, a + b) == EntriesOf(key, a) + EntriesOf(key, b)
    decreases |a|
  {
    if a == [] {
      assert a + b == b;
    } else {
      assert (a + b)[1..] == a[1..] + b;
      EntriesOfConcat(key, a[1..], b);
    }
  }

  lemma {:induction false} EntriesOfOne(key: Name, kid: Tree)
    ensures EntriesOf(key, [kid]) == Under(Pair(key, kid.value), Entries(kid))
  {
    assert EntriesOf(key, [kid][1..]) == [];
  }

  /** The entries of the children before i, of child i, and of those after it. */
  lemma {:induction false} EntriesSplit(key: Name, kids: seq<Tree>, i: nat)
    requires i < |kids|
    ensures EntriesOf(key, kids) ==
            EntriesOf(key, kids[..i])
            + Under(Pair(key, kids[i].value), Entries(kids[i]))
            + EntriesOf(key, kids[i + 1..])
  {
    assert kids == kids[..i] + [kids[i]] + kids[i + 1..];
    EntriesOfConcat(key, kids[..i] + [kids[i]], kids[i + 1..]);
    EntriesOfConcat(key, kids[..i], [kids[i]]);
    EntriesOfOne(key, kids[i]);
  }

  lemma {:induction false} EntryComesFromKid(key: Name, kids: seq<Tree>, e: Entry) returns (j: nat, f: Entry)
    requires e in EntriesOf(key, kids)
    ensures j < |kids| && f in Entries(kids[j]) && e == Prefixed(Pair(key, kids[j].value), f)
    decreases |kids|
  {
    var first := Under(Pair(key, kids[0].value), Entries(kids[0]));
    if e in first {
      var i :| 0 <= i < |first| && first[i] == e;
      j, f := 0, Entries(kids[0])[i];
    } else {
      j, f := EntryComesFromKid(key, kids[1..], e);
      j := j + 1;
    }
  }

  lemma {:induction false} KidEntryIsThere(key: Name, kids: seq<Tree>, j: nat, f: Entry)
    requires j < |kids| && f in Entries(kids[j])
    ensures Prefixed(Pair(key, kids[j].value), f) in EntriesOf(key, kids)
  {
    EntriesSplit(key, kids, j);
    var own := Under(Pair(key, kids[j].value), Entries(kids[j]));
    var i :| 0 <= i < |Entries(kids[j])| && Entries(kids[j])[i] == f;
    assert own[i] == Prefixed(Pair(key, kids[j].value), f);
    assert own[i] in own;
  }

  lemma {:induction false} HasEntry(t: Tree)
    requires WellFormed(t)
    ensures Entries(t) != []
    decreases t
  {
    if t.Node? {
      HasEntry(t.kids[0]);
    }
  }

  // ----- chains -----

  lemma {:induction false} ChainHasOneEntry(value: Name, path: Path, blob: Blob, ids: seq<Oid>)
    requires |ids| == |path| + 1
    ensures var c := Chain(value, path, blob, ids);
            && Entries(c) == [Entry(path, ids[|path|], blob)]
            && WellFormed(c) && c.value == value && c.id == ids[0] && (c.Leaf? <==> path == [])
    decreases |path|
  {
    if path != [] {
      ChainHasOneEntry(path[0].value, path[1..], blob, ids[1..]);
      var kid := Chain(path[0].value, path[1..], blob, ids[1..]);
      EntriesOfOne(path[0].key, kid);
      assert [path[0]] + path[1..] == path;
    }
  }

  // ----- what an accepted insertion does -----

  lemma {:induction false} SplicedInside(a: seq<Entry>, m: seq<Entry>, m': seq<Entry>, b: seq<Entry>, e: Entry)
    requires Spliced(m, m', [e])
    ensures Spliced(a + m + b, a + m' + b, [e])
  {
    var k :| 0 <= k <= |m| && m' == m[..k] + [e] + m[k..];
    var es := a + m + b;
    assert es[..|a| + k] == a + m[..k];
    assert es[|a| + k..] == m[k..] + b;
    assert a + m' + b == es[..|a| + k] + [e] + es[|a| + k..];
  }

  lemma {:induction false} SplicedUnder(step: Pair, es: seq<Entry>, es': seq<Entry>, e: Entry)
    requires Spliced(es, es', [e])
    ensures Spliced(Under(step, es), Under(step, es'), [Prefixed(step, e)])
  {
    var k :| 0 <= k <= |es| && es' == es[..k] + [e] + es[k..];
    var u := Under(step, es);
    assert Under(step, es') == u[..k] + [Prefixed(step, e)] + u[k..];
  }

  lemma {:induction false} NewKidEntries(t: Tree, kid: Tree, e: Entry)
    requires t.Node? && Entries(kid) == [e]
    ensures Spliced(Entries(t), Entries(t.(kids := t.kids + [kid])), [Prefixed(Pair(t.key, kid.value), e)])
  {
    EntriesOfConcat(t.key, t.kids, [kid]);
    EntriesOfOne(t.key, kid);
    var es := Entries(t);
    assert es[..|es|] == es && es[|es|..] == [];
    assert Entries(t.(kids := t.kids + [kid])) == es[..|es|] + [Prefixed(Pair(t.key, kid.value), e)] + es[|es|..];
  }

  lemma {:induction false} ChangedKidEntries(t: Tree, i: nat, kid: Tree, e: Entry)
    requires t.Node? && i < |t.kids| && kid.value == t.kids[i].value && Spliced(Entries(t.kids[i]), Entries(kid), [e])
    ensures Spliced(Entries(t), Entries(t.(kids := t.kids[i := kid])), [Prefixed(Pair(t.key, kid.value), e)])
  {
    var step, kids' := Pair(t.key, kid.value), t.kids[i := kid];
    SplicedUnder(step, Entries(t.kids[i]), Entries(kid), e);
    EntriesSplit(t.key, t.kids, i);
    EntriesSplit(t.key, kids', i);
    assert kids'[..i] == t.kids[..i] && kids'[i + 1..] == t.kids[i + 1..];
    SplicedInside(EntriesOf(t.key, t.kids[..i]), Under(step, Entries(t.kids[i])), Under(step, Entries(kid)),
                  EntriesOf(t.key, t.kids[i + 1..]), Prefixed(step, e));
  }

  /** An accepted insertion adds exactly one entry, keeps every other where it was relative to
      the rest, and keeps the tree well formed. */
  lemma {:induction false} InsertAddsOneEntry(t: Tree, p: Path, blob: Blob, ids: seq<Oid>)
    requires |ids| == |p| && WellFormed(t) && Insert(t, p, blob, ids).Inserted?
    ensures var t' := Insert(t, p, blob, ids).tree;
            && WellFormed(t') && t'.Node? && t'.id == t.id && t'.value == t.value && t'.key == t.key
            && Spliced(Entries(t), Entries(t'), [Entry(p, ids[|p| - 1], blob)])
    decreases t
  {
    hide Spliced;
    var step, rest := p[0], p[1..];
    assert p == [step] + rest;
    var i := Find(t.kids, step.value);
    var e := Entry(rest, ids[|p| - 1], blob);
    if i == |t.kids| {
      ChainHasOneEntry(step.value, rest, blob, ids);
      NewKidEntries(t, Chain(step.value, rest, blob, ids), e);
    } else {
      InsertAddsOneEntry(t.kids[i], rest, blob, ids[1..]);
      ChangedKidEntries(t, i, Insert(t.kids[i], rest, blob, ids[1..]).tree, e);
    }
  }

  // ----- when an insertion is accepted -----

  lemma {:induction false} BranchesStep(p: Path, q: Path)
    ensures Branches(p, q) <==>
            p != [] && q != [] && p[0].key == q[0].key && (p[0].value != q[0].value || Branches(p[1..], q[1..]))
  {
    if Branches(p, q) {
      var i: nat :| BranchesAt(p, q, i);
      if i > 0 {
        assert p[0] == p[..i][0] && q[0] == q[..i][0];
        assert p[1..][..i - 1] == p[..i][1..] && q[1..][..i - 1] == q[..i][1..];
        assert BranchesAt(p[1..], q[1..], i - 1);
      }
    }
    if p != [] && q != [] && p[0].key == q[0].key {
      if p[0].value != q[0].value {
        assert BranchesAt(p, q, 0);
      } else if Branches(p[1..], q[1..]) {
        var j: nat :| BranchesAt(p[1..], q[1..], j);
        assert p[..j + 1] == [p[0]] + p[1..][..j] && q[..j + 1] == [q[0]] + q[1..][..j];
        assert BranchesAt(p, q, j + 1);
      }
    }
  }

  ghost predicate BranchesFromAll(p: Path, es: seq<Entry>) {
    forall e | e in es :: Branches(p, e.path)
  }

  /** Against the entries below one node: the key must match, and only the child with the
      same value matters further. */
  lemma {:induction false} BranchesFromKids(p: Path, t: Tree)
    requires t.Node? && WellFormed(t)
    ensures BranchesFromAll(p, Entries(t)) <==>
            p != [] && p[0].key == t.key &&
            var i := Find(t.kids, p[0].value);
            (i < |t.kids| ==> BranchesFromAll(p[1..], Entries(t.kids[i])))
  {
    if BranchesFromAll(p, Entries(t)) {
      HasEntry(t.kids[0]);
      var f := Entries(t.kids[0])[0];
      KidEntryIsThere(t.key, t.kids, 0, f);
      BranchesStep(p, Prefixed(Pair(t.key, t.kids[0].value), f).path);
      var i := Find(t.kids, p[0].value);
      if i < |t.kids| {
        forall f | f in Entries(t.kids[i]) ensures Branches(p[1..], f.path) {
          var e := Prefixed(Pair(t.key, t.kids[i].value), f);
          KidEntryIsThere(t.key, t.kids, i, f);
          BranchesStep(p, e.path);
          assert e.path[1..] == f.path;
        }
      }
    }
    if p != [] && p[0].key == t.key {
      var i := Find(t.kids, p[0].value);
      if i < |t.kids| ==> BranchesFromAll(p[1..], Entries(t.kids[i])) {
        forall e | e in Entries(t) ensures Branches(p, e.path) {
          var j, f := EntryComesFromKid(t.key, t.kids, e);
          BranchesStep(p, e.path);
          assert e.path[1..] == f.path;
        }
      }
    }
  }

  /** The exact acceptance condition: the new path branches off from every stored path. */
  lemma {:induction false} AcceptedIff(t: Tree, p: Path, blob: Blob, ids: seq<Oid>)
    requires |ids| == |p| && WellFormed(t)
    ensures Insert(t, p, blob, ids).Inserted? <==> p != [] && BranchesFromAll(p, Entries(t))
    decreases t
  {
    if t.Leaf? {
      BranchesStep(p, []);
      assert Entries(t)[0].path == [];
    } else {
      BranchesFromKids(p, t);
      if p != [] {
        var i := Find(t.kids, p[0].value);
        if i < |t.kids| {
          AcceptedIff(t.kids[i], p[1..], blob, ids[1..]);
          if t.kids[i].Leaf? {
            assert Entries(t.kids[i])[0].path == [];
            BranchesStep(p[1..], []);
          } else if p[1..] == [] {
            HasEntry(t.kids[i]);
            BranchesStep([], Entries(t.kids[i])[0].path);
          }
        }
      }
    }
  }

  ghost predicate PrefixStored(t: Tree, p: Path) {
    exists e :: e in Entries(t) && e.path <= p
  }

  lemma {:induction false} PrefixStep(t: Tree, p: Path)
    requires WellFormed(t) && t.Node?
    ensures PrefixStored(t, p) <==>
            p != [] && p[0].key == t.key && Find(t.kids, p[0].value) < |t.kids|
            && PrefixStored(t.kids[Find(t.kids, p[0].value)], p[1..])
  {
    if e :| e in Entries(t) && e.path <= p {
      var j, f := EntryComesFromKid(t.key, t.kids, e);
      assert p[0] == e.path[0] && f.path == e.path[1..] && f.path <= p[1..];
      assert Find(t.kids, p[0].value) == j;
    }
    if p != [] && p[0].key == t.key && Find(t.kids, p[0].value) < |t.kids| {
      var i := Find(t.kids, p[0].value);
      if f :| f in Entries(t.kids[i]) && f.path <= p[1..] {
        KidEntryIsThere(t.key, t.kids, i, f);
        assert p == [p[0]] + p[1..];
        assert Prefixed(Pair(t.key, t.kids[i].value), f).path <= p;
      }
    }
  }

  /** LeafExistsError is thrown exactly when a stored path is a prefix of the new one; every
      other refusal is a failed assertion. */
  lemma {:induction false} LeafExistsIff(t: Tree, p: Path, blob: Blob, ids: seq<Oid>)
    requires |ids| == |p| && WellFormed(t) && t.Node?
    ensures Insert(t, p, blob, ids) == Refused(LeafExists) <==> PrefixStored(t, p)
    ensures Insert(t, p, blob, ids).Refused? ==> Insert(t, p, blob, ids).why in {LeafExists, AssertionFailed}
    decreases t
  {
    hide PrefixStored;
    PrefixStep(t, p);
    if p != [] && p[0].key == t.key && Find(t.kids, p[0].value) < |t.kids| {
      var kid := t.kids[Find(t.kids, p[0].value)];
      if kid.Node? {
        LeafExistsIff(kid, p[1..], blob, ids[1..]);
      } else {
        LeafIsPrefix(kid, p[1..]);
      }
    }
  }

  lemma {:induction false} LeafIsPrefix(t: Tree, p: Path)
    requires t.Leaf?
    ensures PrefixStored(t, p)
  {
    assert Entries(t)[0].path == [];
  }

  // ----- stored paths -----

  ghost predicate PairwiseBranching(es: seq<Entry>) {
    forall i, j | 0 <= i < j < |es| :: Branches(es[i].path, es[j].path)
  }

  /** Any two stored paths branch: none is a prefix of another, no two are equal. */
  lemma {:induction false} StoredPathsBranch(t: Tree)
    requires WellFormed(t)
    ensures PairwiseBranching(Entries(t))
    decreases t, 1
  {
    if t.Node? {
      KidsPathsBranch(t.key, t.kids);
    }
  }

  lemma {:induction false} KidsPathsBranch(key: Name, kids: seq<Tree>)
    requires forall i, j | 0 <= i < j < |kids| :: kids[i].value != kids[j].value
    requires forall i | 0 <= i < |kids| :: WellFormed(kids[i])
    ensures PairwiseBranching(EntriesOf(key, kids))
    decreases kids, 0
  {
    if kids != [] {
      var step := Pair(key, kids[0].value);
      var mine, theirs := Under(step, Entries(kids[0])), EntriesOf(key, kids[1..]);
      StoredPathsBranch(kids[0]);
      KidsPathsBranch(key, kids[1..]);
      var all := EntriesOf(key, kids);
      forall i, j | 0 <= i < j < |all| ensures Branches(all[i].path, all[j].path) {
        var p, q := all[i].path, all[j].path;
        if j < |mine| {
          assert p[1..] == Entries(kids[0])[i].path && q[1..] == Entries(kids[0])[j].path;
          BranchesStep(p, q);
        } else if i < |mine| {
          var n, f := EntryComesFromKid(key, kids[1..], theirs[j - |mine|]);
          BranchesStep(p, q);
        }
      }
    }
  }

  lemma {:induction false} BranchingIsNotPrefix(p: Path, q: Path)
    requires Branches(p, q)
    ensures !(p <= q) && !(q <= p) && p != q
  {
    var i :| BranchesAt(p, q, i);
  }

  // ----- queries -----

  lemma {:induction false} MatchingConcat(a: seq<Entry>, b: seq<Entry>, request: Dict)
    ensures Matching(a + b, request) == Matching(a, request) + Matching(b, request)
    decreases |a|
  {
    if a == [] {
      assert a + b == b;
    } else {
      assert (a + b)[1..] == a[1..] + b;
      MatchingConcat(a[1..], b, request);
    }
  }

  lemma {:induction false} MatchingUnder(step: Pair, es: seq<Entry>, request: Dict)
    ensures Matching(Under(step, es), request) ==
            if step.key in request && request[step.key] != step.value then [] else Matching(es, request)
    decreases |es|
  {
    if es != [] {
      var p := [step] + es[0].path;
      assert Under(step, es)[1..] == Under(step, es[1..]);
      MatchingUnder(step, es[1..], request);
      assert p[0] == step && p[1..] == es[0].path;
      var q := es[0].path;
      assert Agrees(p, request) <==>
             (step.key in request ==> request[step.key] == step.value) && Agrees(q, request) by {
        if Agrees(p, request) {
          forall i | 0 <= i < |q| ensures q[i].key in request ==> request[q[i].key] == q[i].value {
            assert p[i + 1] == q[i];
          }
        }
      }
    }
  }

  /** A query returns the leaves whose stored path agrees with the request, and no others,
      in depth-first order: a filter over the flat list. */
  lemma {:induction false} LookupIsFilter(t: Tree, request: Dict)
    requires t.Node?
    ensures Lookup(t, request) == Matching(Entries(t), request)
    decreases t, 1
  {
    LookupOfIsFilter(t.key, t.kids, request);
  }

  lemma {:induction false} LookupOfIsFilter(key: Name, kids: seq<Tree>, request: Dict)
    ensures LookupOf(key, kids, request) == Matching(EntriesOf(key, kids), request)
    decreases kids, 0
  {
    if kids != [] {
      var step := Pair(key, kids[0].value);
      var es := Entries(kids[0]);
      if kids[0].Node? {
        LookupIsFilter(kids[0], request);
      } else {
        assert Matching(es[1..], request) == [];
      }
      MatchingUnder(step, es, request);
      MatchingConcat(Under(step, es), EntriesOf(key, kids[1..]), request);
      LookupOfIsFilter(key, kids[1..], request);
    }
  }

  /** A later query returns what the same query returned before, in the same order, with the
      new leaf put in if its path agrees with the request. */
  lemma {:induction false} LookupOnlyGrows(t: Tree, p: Path, blob: Blob, ids: seq<Oid>, request: Dict)
    requires |ids| == |p| && WellFormed(t) && Insert(t, p, blob, ids).Inserted?
    ensures Spliced(Lookup(t, request), Lookup(Insert(t, p, blob, ids).tree, request),
                    if Agrees(p, request) then [ids[|p| - 1]] else [])
  {
    InsertAddsOneEntry(t, p, blob, ids);
    var t' := Insert(t, p, blob, ids).tree;
    var es, e := Entries(t), Entry(p, ids[|p| - 1], blob);
    var k :| 0 <= k <= |es| && Entries(t') == es[..k] + [e] + es[k..];
    LookupIsFilter(t, request);
    LookupIsFilter(t', request);
    assert es == es[..k] + es[k..];
    MatchingConcat(es[..k], es[k..], request);
    MatchingConcat(es[..k] + [e], es[k..], request);
    MatchingConcat(es[..k], [e], request);
    assert Matching([e], request) == if Agrees(p, request) then [e.id] else [];
    var n := |Matching(es[..k], request)|;
    var r := Lookup(t, request);
    assert r[..n] == Matching(es[..k], request) && r[n..] == Matching(es[k..], request);
  }

  // ----- over many insertions -----

  lemma {:induction false} SubsequenceSelf<T>(s: seq<T>)
    ensures Subsequence(s, s)
    decreases |s|
  {
    if s != [] {
      SubsequenceSelf(s[1..]);
    }
  }

  lemma {:induction false} SubsequenceChain<T>(a: seq<T>, b: seq<T>, c: seq<T>)
    requires Subsequence(a, b) && Subsequence(b, c)
    ensures Subsequence(a, c)
    decreases |c|
  {
    if a != [] {
      if Subsequence(b, c[1..]) {
        SubsequenceChain(a, b, c[1..]);
      } else if Subsequence(a, b[1..]) {
        SubsequenceChain(a, b[1..], c[1..]);
      } else {
        SubsequenceChain(a[1..], b[1..], c[1..]);
      }
    }
  }

  lemma {:induction false} SubsequenceKeeps<T>(s: seq<T>, s': seq<T>, x: T)
    requires Subsequence(s, s') && x in s
    ensures x in s'
    decreases |s'|
  {
    if Subsequence(s, s'[1..]) {
      SubsequenceKeeps(s, s'[1..], x);
    } else if x != s[0] {
      SubsequenceKeeps(s[1..], s'[1..], x);
    }
  }

  lemma {:induction false} PutInAt<T>(s: seq<T>, k: nat, x: T)
    requires k <= |s|
    ensures Subsequence(s, s[..k] + [x] + s[k..])
    decreases k
  {
    hide Subsequence;
    var s' := s[..k] + [x] + s[k..];
    if k == 0 {
      assert s'[1..] == s;
      SubsequenceSelf(s);
      SkipFirst(s, s');
    } else {
      PutInAt(s[1..], k - 1, x);
      assert s'[1..] == s[1..][..k - 1] + [x] + s[1..][k - 1..];
      KeepFirst(s, s');
    }
  }

  lemma {:induction false} SkipFirst<T>(s: seq<T>, s': seq<T>)
    requires s' != [] && Subsequence(s, s'[1..])
    ensures Subsequence(s, s')
  {
  }

  lemma {:induction false} KeepFirst<T>(s: seq<T>, s': seq<T>)
    requires s != [] && s' != [] && s[0] == s'[0] && Subsequence(s[1..], s'[1..])
    ensures Subsequence(s, s')
  {
  }

  lemma {:induction false} SplicedIsSubsequence<T>(s: seq<T>, s': seq<T>, x: T)
    requires Spliced(s, s', [x])
    ensures Subsequence(s, s')
  {
    var k :| 0 <= k <= |s| && s' == s[..k] + [x] + s[k..];
    PutInAt(s, k, x);
  }

  /** What a query finds in a list of entries, it finds in order in any list that has grown from it. */
  lemma {:induction false} MatchingGrows(es: seq<Entry>, es': seq<Entry>, request: Dict)
    requires Subsequence(es, es')
    ensures Subsequence(Matching(es, request), Matching(es', request))
    decreases |es'|
  {
    if es != [] {
      var m' := Matching(es'[1..], request);
      if Subsequence(es, es'[1..]) {
        MatchingGrows(es, es'[1..], request);
        assert ([es'[0].id] + m')[1..] == m' && [] + m' == m';
      } else {
        MatchingGrows(es[1..], es'[1..], request);
        var m := Matching(es[1..], request);
        assert ([es[0].id] + m)[1..] == m && ([es'[0].id] + m')[1..] == m' && [] + m == m && [] + m' == m';
      }
    }
  }
}
