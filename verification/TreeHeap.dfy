/** When a heap holds a tree, and what a power cut inside an operation on it can leave. */
module TreeHeap {
  import opened Pmem
  import opened PersistentPtr
  import opened VectorSpec
  import opened TreeSpec

  // ----- representation -----

  ghost function IdsOf(kids: seq<Tree>): (ids: seq<Oid>)
    ensures |ids| == |kids|
    ensures forall i | 0 <= i < |kids| :: ids[i] == kids[i].id
  {
    seq(|kids|, i requires 0 <= i < |kids| => kids[i].id)
  }

  /** The blocks that one node owns: itself, its slot array, its data buffer. */
  ghost function Own(h: Heap, id: Oid): set<Oid> {
    {id} + (if id in h && h[id].NodeBlock? then Named(h[id].data) + Named(h[id].ptr.now) else {})
  }

  /** All blocks of the tree t in the heap h. */
  ghost function Foot(h: Heap, t: Tree): set<Oid> {
    Own(h, t.id)
    + if t.Leaf? then {} else set i, x | 0 <= i < |t.kids| && x in Foot(h, t.kids[i]) :: x
  }

  /** The heap h holds the tree t, at rest: every pointer names a live block of its own type,
      no word is in flight, leaves have data and no children, interior nodes the reverse, and
      no block is used twice. */
  ghost predicate Repr(h: Heap, t: Tree) {
    && NodeRepr(h, t)
    && (t.Node? ==> (forall i | 0 <= i < |t.kids| :: Repr(h, t.kids[i])) && Unshared(h, t))
  }

  /** The part of Repr that concerns the node's own blocks. */
  ghost predicate NodeRepr(h: Heap, t: Tree) {
    && t.id != NULL && Valid(h, t.id, NODE_TYPE) && h[t.id].value == t.value && Settled(h[t.id].ptr)
    && match t
       case Leaf(id, _, blob) =>
         && h[id].key == "" && h[id].ptr.now == NULL
         && h[id].data != NULL && Valid(h, h[id].data, BUFFER_TYPE) && h[h[id].data].bytes == blob
       case Node(id, key, _, kids) =>
         h[id].key == key && h[id].data == NULL && VecRepr(h, id, IdsOf(kids))
  }

  ghost predicate Unshared(h: Heap, t: Tree)
    requires t.Node?
  {
    && (forall i | 0 <= i < |t.kids| :: Own(h, t.id) !! Foot(h, t.kids[i]))
    && (forall i, j | 0 <= i < j < |t.kids| :: Foot(h, t.kids[i]) !! Foot(h, t.kids[j]))
  }

  /** Every block of a tree at rest is live and has nothing in flight. */
  lemma {:induction false} ReprIsFixed(h: Heap, t: Tree)
    requires Repr(h, t)
    ensures forall x | x in Foot(h, t) :: x in h && Fixed(h[x])
    decreases t
  {
    if t.Node? {
      forall x | x in Foot(h, t) ensures x in h && Fixed(h[x]) {
        if x !in Own(h, t.id) {
          var i :| 0 <= i < |t.kids| && x in Foot(h, t.kids[i]);
          ReprIsFixed(h, t.kids[i]);
        }
      }
    }
  }

  ghost predicate Stays(h: Heap, h': Heap, s: set<Oid>) {
    forall x | x in s :: x in h && x in h' && h'[x] == h[x]
  }

  lemma {:induction false} KidFoot(h: Heap, t: Tree, i: nat)
    requires t.Node? && i < |t.kids|
    ensures Foot(h, t.kids[i]) <= Foot(h, t) && Own(h, t.id) <= Foot(h, t)
  {
  }

  /** A tree depends on nothing but its own blocks. */
  lemma {:induction false} ReprFrame(h: Heap, h': Heap, t: Tree)
    requires Repr(h, t)
    requires Stays(h, h', Foot(h, t))
    ensures Repr(h', t) && Foot(h', t) == Foot(h, t)
    decreases t
  {
    assert t.id in Foot(h, t);
    assert Own(h', t.id) == Own(h, t.id);
    if t.Leaf? {
      assert h[t.id].data in Foot(h, t);
    } else {
      forall i | 0 <= i < |t.kids| ensures Repr(h', t.kids[i]) && Foot(h', t.kids[i]) == Foot(h, t.kids[i]) {
        KidFoot(h, t, i);
        ReprFrame(h, h', t.kids[i]);
      }
      var v := h[t.id].ptr.now;
      assert v != NULL ==> v in Foot(h, t);
      assert Foot(h', t) == Foot(h, t);
    }
  }

  // ----- steps -----

  /** After a power cut the heap h' holds the tree t, on the blocks that belonged to t0 in h0
      and on blocks that did not exist in h0. */
  ghost predicate Recovers(h0: Heap, t0: Tree, h': Heap, t: Tree) {
    Repr(h', t) && forall x | x in Foot(h', t) && x in h0 :: x in Foot(h0, t0)
  }

  /** h is a state passed through by an operation that turns t into t', started in h0. No other
      block is touched, and a power cut in h recovers t or t', never anything between. */
  ghost predicate TreeStep(h0: Heap, h: Heap, t: Tree, t': Tree) {
    && Frame(h0, h, Foot(h0, t))
    && forall h' | CrashImage(h, h') :: Recovers(h0, t, h', t) || Recovers(h0, t, h', t')
  }

  /** A heap that still holds every block of h0 recovers t. */
  lemma {:induction false} NothingTouched(h0: Heap, h: Heap, t: Tree, t': Tree)
    requires Repr(h0, t) && Frame(h0, h, {})
    ensures TreeStep(h0, h, t, t')
  {
    ReprIsFixed(h0, t);
    forall h' | CrashImage(h, h') ensures Recovers(h0, t, h', t) {
      forall x | x in Foot(h0, t) ensures x in h' && h'[x] == h0[x] {
        FixedBlockImage(h[x], h'[x]);
      }
      ReprFrame(h0, h', t);
    }
  }

  /** A state at rest is a step. */
  lemma {:induction false} AtRest(h0: Heap, h: Heap, t: Tree, t': Tree)
    requires Repr(h, t') && Frame(h0, h, Foot(h0, t))
    requires forall x | x in Foot(h, t') && x in h0 :: x in Foot(h0, t)
    ensures TreeStep(h0, h, t, t')
  {
    ReprIsFixed(h, t');
    forall h' | CrashImage(h, h') ensures Recovers(h0, t, h', t') {
      forall x | x in Foot(h, t') ensures x in h' && h'[x] == h[x] {
        FixedBlockImage(h[x], h'[x]);
      }
      ReprFrame(h, h', t');
    }
  }

  /** A step of an operation that began after harmless changes is a step of the whole. */
  lemma {:induction false} Rebase(h0: Heap, h1: Heap, h: Heap, t: Tree, t': Tree)
    requires Frame(h0, h1, Foot(h0, t)) && h0.Keys <= h1.Keys
    requires forall x | x in h0 :: x in Foot(h1, t) <==> x in Foot(h0, t)
    requires TreeStep(h1, h, t, t')
    ensures TreeStep(h0, h, t, t')
  {
    forall h' | CrashImage(h, h') ensures Recovers(h0, t, h', t) || Recovers(h0, t, h', t') {
      assert Recovers(h1, t, h', t) || Recovers(h1, t, h', t');
    }
  }

  // ----- a step below one child is a step of the parent -----

  lemma {:induction false} SiblingStays(h0: Heap, h': Heap, t: Tree, i: nat, j: nat)
    requires Repr(h0, t) && t.Node? && i < |t.kids| && j < |t.kids| && i != j
    requires Stays(h0, h', Foot(h0, t) - Foot(h0, t.kids[i]))
    ensures Repr(h', t.kids[j]) && Foot(h', t.kids[j]) == Foot(h0, t.kids[j])
    ensures Foot(h0, t.kids[i]) !! Foot(h0, t.kids[j])
  {
    assert Foot(h0, t.kids[i]) !! Foot(h0, t.kids[j]);
    KidFoot(h0, t, j);
    ReprFrame(h0, h', t.kids[j]);
  }

  lemma {:induction false} NodeStays(h0: Heap, h': Heap, t: Tree)
    requires NodeRepr(h0, t) && t.Node? && Stays(h0, h', Own(h0, t.id))
    ensures NodeRepr(h', t) && Own(h', t.id) == Own(h0, t.id)
  {
    assert t.id in Own(h0, t.id);
    var v := h0[t.id].ptr.now;
    assert v != NULL ==> v in Own(h0, t.id);
  }

  /** The blocks after child i has given way to `kid`, which brings only new blocks. */
  ghost predicate KidSwapped(h0: Heap, h': Heap, t: Tree, i: nat, kid: Tree)
    requires t.Node? && i < |t.kids|
  {
    && Own(h', t.id) == Own(h0, t.id)
    && (forall j | 0 <= j < |t.kids| && j != i :: Foot(h', t.kids[j]) == Foot(h0, t.kids[j]))
    && (forall x | x in Foot(h', kid) && x in h0 :: x in Foot(h0, t.kids[i]))
    && Foot(h0, t) <= h0.Keys
  }

  lemma {:induction false} SwapKeepsUnshared(h0: Heap, h': Heap, t: Tree, i: nat, kid: Tree)
    requires t.Node? && i < |t.kids| && Unshared(h0, t) && KidSwapped(h0, h', t, i, kid)
    ensures Unshared(h', t.(kids := t.kids[i := kid]))
  {
    var kids' := t.kids[i := kid];
    forall j | 0 <= j < |kids'| ensures Own(h', t.id) !! Foot(h', kids'[j]) {
      KidFoot(h0, t, j);
      assert Own(h0, t.id) !! Foot(h0, t.kids[j]);
    }
    forall j, k | 0 <= j < k < |kids'| ensures Foot(h', kids'[j]) !! Foot(h', kids'[k]) {
      KidFoot(h0, t, j);
      KidFoot(h0, t, k);
      assert Foot(h0, t.kids[j]) !! Foot(h0, t.kids[k]);
    }
  }

  lemma {:induction false} SwapStaysInside(h0: Heap, h': Heap, t: Tree, i: nat, kid: Tree)
    requires t.Node? && i < |t.kids| && KidSwapped(h0, h', t, i, kid)
    ensures forall x | x in Foot(h', t.(kids := t.kids[i := kid])) && x in h0 :: x in Foot(h0, t)
  {
    var t' := t.(kids := t.kids[i := kid]);
    forall x | x in Foot(h', t') && x in h0 ensures x in Foot(h0, t) {
      if x !in Own(h', t.id) {
        var j: nat :| j < |t'.kids| && x in Foot(h', t'.kids[j]);
        KidFoot(h0, t, j);
      }
    }
  }

  lemma {:induction false} Assemble(h': Heap, t: Tree, i: nat, kid: Tree)
    requires t.Node? && i < |t.kids| && kid.id == t.kids[i].id
    requires NodeRepr(h', t) && Unshared(h', t.(kids := t.kids[i := kid])) && Repr(h', kid)
    requires forall j | 0 <= j < |t.kids| && j != i :: Repr(h', t.kids[j])
    ensures Repr(h', t.(kids := t.kids[i := kid]))
  {
    assert IdsOf(t.kids[i := kid]) == IdsOf(t.kids);
  }

  lemma {:induction false} ReplaceKid(h0: Heap, h': Heap, t: Tree, i: nat, kid: Tree)
    requires Repr(h0, t) && t.Node? && i < |t.kids| && kid.id == t.kids[i].id
    requires Recovers(h0, t.kids[i], h', kid)
    requires Stays(h0, h', Foot(h0, t) - Foot(h0, t.kids[i]))
    ensures Recovers(h0, t, h', t.(kids := t.kids[i := kid]))
  {
    forall j: nat | j < |t.kids| && j != i
      ensures Repr(h', t.kids[j]) && Foot(h', t.kids[j]) == Foot(h0, t.kids[j])
    {
      SiblingStays(h0, h', t, i, j);
    }
    assert Foot(h0, t) <= h0.Keys by {
      ReprIsFixed(h0, t);
    }
    assert Stays(h0, h', Own(h0, t.id)) by {
      KidFoot(h0, t, i);
      assert Own(h0, t.id) !! Foot(h0, t.kids[i]);
    }
    NodeStays(h0, h', t);
    SwapKeepsUnshared(h0, h', t, i, kid);
    SwapStaysInside(h0, h', t, i, kid);
    Assemble(h', t, i, kid);
  }

  lemma {:induction false} KidStep(h0: Heap, h: Heap, t: Tree, i: nat, kid: Tree)
    requires Repr(h0, t) && t.Node? && i < |t.kids| && kid.id == t.kids[i].id
    requires TreeStep(h0, h, t.kids[i], kid)
    ensures TreeStep(h0, h, t, t.(kids := t.kids[i := kid]))
  {
    var t' := t.(kids := t.kids[i := kid]);
    assert t.(kids := t.kids[i := t.kids[i]]) == t;
    KidFoot(h0, t, i);
    ReprIsFixed(h0, t);
    forall h' | CrashImage(h, h') ensures Recovers(h0, t, h', t) || Recovers(h0, t, h', t') {
      forall x | x in Foot(h0, t) && x !in Foot(h0, t.kids[i]) ensures x in h' && h'[x] == h0[x] {
        FixedBlockImage(h[x], h'[x]);
      }
      if Recovers(h0, t.kids[i], h', t.kids[i]) {
        ReplaceKid(h0, h', t, i, t.kids[i]);
      } else {
        ReplaceKid(h0, h', t, i, kid);
      }
    }
  }

  // ----- a step of the node's own vector is a step of the tree -----

  /** The trees `kids` stand side by side in h, none sharing a block with another. */
  ghost predicate Forest(h: Heap, kids: seq<Tree>) {
    && (forall j | 0 <= j < |kids| :: Repr(h, kids[j]) && Foot(h, kids[j]) <= h.Keys)
    && forall j, k | 0 <= j < k < |kids| :: Foot(h, kids[j]) !! Foot(h, kids[k])
  }

  lemma {:induction false} KidsAreForest(h: Heap, t: Tree)
    requires Repr(h, t) && t.Node?
    ensures Forest(h, t.kids) && Foot(h, t) <= h.Keys
  {
    ReprIsFixed(h, t);
    forall j | 0 <= j < |t.kids| ensures Foot(h, t.kids[j]) <= h.Keys {
      KidFoot(h, t, j);
    }
  }

  lemma {:induction false} ForestStays(h1: Heap, h': Heap, kids: seq<Tree>)
    requires Forest(h1, kids) && forall j | 0 <= j < |kids| :: Stays(h1, h', Foot(h1, kids[j]))
    ensures Forest(h', kids) && forall j | 0 <= j < |kids| :: Foot(h', kids[j]) == Foot(h1, kids[j])
  {
    forall j | 0 <= j < |kids| ensures Repr(h', kids[j]) && Foot(h', kids[j]) == Foot(h1, kids[j]) {
      ReprFrame(h1, h', kids[j]);
    }
  }

  /** A node and a forest that avoids the node's own blocks make a tree. */
  lemma {:induction false} MakeNode(h': Heap, t: Tree)
    requires t.Node? && NodeRepr(h', t) && Forest(h', t.kids)
    requires forall j | 0 <= j < |t.kids| :: Own(h', t.id) !! Foot(h', t.kids[j])
    ensures Repr(h', t)
  {
  }

  /** Nothing in the forest is touched by a step of a vector elsewhere. */
  lemma {:induction false} VecStepSparesForest(h1: Heap, h: Heap, h': Heap, owner: Oid, ids: seq<Oid>,
        xs: set<Oid>, kids: seq<Tree>)
    requires VecRepr(h1, owner, ids) && VecStep(h1, h, owner, ids, xs) && Quiet(h, h')
    requires Forest(h1, kids)
    requires forall j | 0 <= j < |kids| :: {owner} + Named(h1[owner].ptr.now) !! Foot(h1, kids[j])
    ensures Forest(h', kids) && forall j | 0 <= j < |kids| :: Foot(h', kids[j]) == Foot(h1, kids[j])
  {
    forall j | 0 <= j < |kids| ensures Stays(h1, h', Foot(h1, kids[j])) {
      ReprIsFixed(h1, kids[j]);
    }
    ForestStays(h1, h', kids);
  }

  /** The children `kids` stand in h1 clear of the blocks that t's own vector uses, and bring
      no block of h0 that was not t's. */
  ghost predicate Ready(h0: Heap, h1: Heap, t: Tree, kids: seq<Tree>)
    requires t.id in h1 && HasPtr(h1[t.id])
  {
    && Forest(h1, kids)
    && (forall j | 0 <= j < |kids| :: {t.id} + Named(h1[t.id].ptr.now) !! Foot(h1, kids[j]))
    && forall j, x | 0 <= j < |kids| && x in Foot(h1, kids[j]) && x in h0 :: x in Foot(h1, t)
  }

  /** The node after a power cut, with the children `kids` that its vector then holds. */
  lemma {:induction false} NodeAfterCut(h0: Heap, h1: Heap, h: Heap, h': Heap, t: Tree, xs: set<Oid>, kids: seq<Tree>)
    requires NodeRepr(h1, t) && t.Node? && h0.Keys <= h1.Keys
    requires VecStep(h1, h, t.id, IdsOf(t.kids), xs) && Quiet(h, h') && h'[t.id] == h[t.id]
    requires Ready(h0, h1, t, kids) && VecRepr(h', t.id, IdsOf(kids))
    ensures Repr(h', t.(kids := kids))
    ensures forall x | x in Foot(h', t.(kids := kids)) && x in h0 :: x in Foot(h1, t)
  {
    var t' := t.(kids := kids);
    VecStepSparesForest(h1, h, h', t.id, IdsOf(t.kids), xs, kids);
    assert Own(h1, t.id) == {t.id} + Named(h1[t.id].ptr.now);
    assert Own(h', t.id) == {t.id} + Named(h'[t.id].ptr.now);
    MakeNode(h', t');
    forall x | x in Foot(h', t') && x in h0 ensures x in Foot(h1, t) {
      if x !in Own(h', t.id) {
        var j :| 0 <= j < |kids| && x in Foot(h', kids[j]);
      }
    }
  }

  /** Repairing, growing and reading a node's vector leaves the tree as it is. */
  lemma {:induction false} VectorReadStep(h0: Heap, h: Heap, t: Tree)
    requires Repr(h0, t) && t.Node? && VecStep(h0, h, t.id, IdsOf(t.kids), {})
    ensures TreeStep(h0, h, t, t)
  {
    KidsAreForest(h0, t);
    OwnVector(h0, t);
    forall h' | CrashImage(h, h') ensures Recovers(h0, t, h', t) {
      CutIsQuiet(h, h');
      VecStepImage(h0, h, h', t.id, IdsOf(t.kids), {});
      assert t.(kids := t.kids) == t;
      NodeAfterCut(h0, h0, h, h', t, {}, t.kids);
    }
  }

  lemma {:induction false} OwnVector(h: Heap, t: Tree)
    requires Repr(h, t) && t.Node?
    ensures Own(h, t.id) == {t.id} + Named(h[t.id].ptr.now)
    ensures forall j | 0 <= j < |t.kids| :: {t.id} + Named(h[t.id].ptr.now) !! Foot(h, t.kids[j])
    ensures forall j, x | 0 <= j < |t.kids| && x in Foot(h, t.kids[j]) :: x in Foot(h, t)
  {
  }

  lemma {:induction false} ReadyForBranch(h0: Heap, h1: Heap, t: Tree, branch: Tree)
    requires Repr(h0, t) && t.Node? && Frame(h0, h1, {})
    requires Repr(h1, branch) && Foot(h1, branch) !! h0.Keys
    ensures Repr(h1, t) && Foot(h1, t) == Foot(h0, t) && h0.Keys <= h1.Keys && h1[t.id] == h0[t.id]
    ensures Own(h1, t.id) == {t.id} + Named(h1[t.id].ptr.now)
    ensures Ready(h0, h1, t, t.kids) && Ready(h0, h1, t, t.kids + [branch])
  {
    assert Foot(h0, t) <= h0.Keys && Foot(h1, branch) <= h1.Keys by {
      ReprIsFixed(h0, t);
      ReprIsFixed(h1, branch);
    }
    ReprFrame(h0, h1, t);
    ForestGrows(h1, t, branch);
    OwnVector(h1, t);
  }

  lemma {:induction false} BranchAfterCut(h0: Heap, h1: Heap, h: Heap, h': Heap, t: Tree, x: Oid, kids': seq<Tree>)
    requires NodeRepr(h1, t) && t.Node? && h0.Keys <= h1.Keys && Foot(h1, t) == Foot(h0, t)
    requires Ready(h0, h1, t, t.kids) && Ready(h0, h1, t, kids') && IdsOf(kids') == IdsOf(t.kids) + [x]
    requires VecStep(h1, h, t.id, IdsOf(t.kids), {x}) && x != NULL && CrashImage(h, h')
    ensures Recovers(h0, t, h', t) || Recovers(h0, t, h', t.(kids := kids'))
  {
    CutIsQuiet(h, h');
    VecStepImage(h1, h, h', t.id, IdsOf(t.kids), {x});
    if VecRepr(h', t.id, IdsOf(t.kids)) {
      assert t.(kids := t.kids) == t;
      NodeAfterCut(h0, h1, h, h', t, {x}, t.kids);
    } else {
      NodeAfterCut(h0, h1, h, h', t, {x}, kids');
    }
  }

  lemma {:induction false} IdsOfGrown(kids: seq<Tree>, branch: Tree)
    ensures IdsOf(kids + [branch]) == IdsOf(kids) + [branch.id]
  {
  }

  /** Appending a finished branch: h1 is the heap once the branch stands beside the tree. */
  lemma {:induction false} VectorPushStep(h0: Heap, h1: Heap, h: Heap, t: Tree, branch: Tree)
    requires Repr(h0, t) && t.Node? && Frame(h0, h1, {})
    requires Repr(h1, branch) && Foot(h1, branch) !! h0.Keys
    requires t.id in h1 && HasPtr(h1[t.id]) && VecStep(h1, h, t.id, IdsOf(t.kids), {branch.id})
    ensures TreeStep(h0, h, t, t.(kids := t.kids + [branch]))
  {
    ReadyForBranch(h0, h1, t, branch);
    IdsOfGrown(t.kids, branch);
    forall h' | CrashImage(h, h') ensures Recovers(h0, t, h', t) || Recovers(h0, t, h', t.(kids := t.kids + [branch])) {
      BranchAfterCut(h0, h1, h, h', t, branch.id, t.kids + [branch]);
    }
    OwnVector(h0, t);
  }

  /** The same at the end of a push that has returned. */
  lemma {:induction false} VectorPushed(h0: Heap, h1: Heap, h: Heap, t: Tree, branch: Tree)
    requires Repr(h0, t) && t.Node? && Frame(h0, h1, {})
    requires Repr(h1, branch) && Foot(h1, branch) !! h0.Keys
    requires t.id in h1 && HasPtr(h1[t.id]) && VecStep(h1, h, t.id, IdsOf(t.kids), {branch.id})
    requires VecRepr(h, t.id, IdsOf(t.kids) + [branch.id])
    ensures Recovers(h0, t, h, t.(kids := t.kids + [branch]))
    ensures Foot(h, t.(kids := t.kids + [branch])) == Foot(h0, t) - Own(h1, t.id) + Own(h, t.id) + Foot(h1, branch)
    ensures Own(h1, t.id) == {t.id} + Named(h1[t.id].ptr.now) && Own(h, t.id) == {t.id} + Named(h[t.id].ptr.now)
  {
    ReadyForBranch(h0, h1, t, branch);
    IdsOfGrown(t.kids, branch);
    PushedFrom(h0, h1, h, t, branch.id, t.kids + [branch]);
    OwnVector(h1, t);
    VecStepSparesForest(h1, h, h, t.id, IdsOf(t.kids), {branch.id}, t.kids + [branch]);
    FeetBefore(h1, h, t, branch);
    FootOfGrown(h1, h, t, branch);
  }

  lemma {:induction false} PushedFrom(h0: Heap, h1: Heap, h: Heap, t: Tree, x: Oid, kids': seq<Tree>)
    requires NodeRepr(h1, t) && t.Node? && h0.Keys <= h1.Keys && Foot(h1, t) == Foot(h0, t)
    requires Ready(h0, h1, t, kids')
    requires VecStep(h1, h, t.id, IdsOf(t.kids), {x}) && VecRepr(h, t.id, IdsOf(kids'))
    ensures Recovers(h0, t, h, t.(kids := kids'))
    ensures Own(h, t.id) == {t.id} + Named(h[t.id].ptr.now)
  {
    hide Repr, Foot, Ready;
    NodeAfterCut(h0, h1, h, h, t, {x}, kids');
  }

  lemma {:induction false} FeetBefore(h1: Heap, h: Heap, t: Tree, branch: Tree)
    requires t.Node?
    requires var kids' := t.kids + [branch]; forall j | 0 <= j < |kids'| :: Foot(h, kids'[j]) == Foot(h1, kids'[j])
    ensures forall j | 0 <= j < |t.kids| :: Foot(h, t.kids[j]) == Foot(h1, t.kids[j])
    ensures Foot(h, branch) == Foot(h1, branch)
  {
    var kids' := t.kids + [branch];
    forall j | 0 <= j < |t.kids| ensures Foot(h, t.kids[j]) == Foot(h1, t.kids[j]) {
      assert kids'[j] == t.kids[j];
    }
    assert kids'[|t.kids|] == branch;
  }

  lemma {:induction false} FootOfGrown(h1: Heap, h: Heap, t: Tree, branch: Tree)
    requires t.Node?
    requires forall j | 0 <= j < |t.kids| :: Foot(h, t.kids[j]) == Foot(h1, t.kids[j])
    requires Foot(h, branch) == Foot(h1, branch)
    requires forall j | 0 <= j < |t.kids| :: Own(h1, t.id) !! Foot(h1, t.kids[j])
    ensures Foot(h, t.(kids := t.kids + [branch])) == Foot(h1, t) - Own(h1, t.id) + Own(h, t.id) + Foot(h1, branch)
  {
    var t' := t.(kids := t.kids + [branch]);
    forall x | x in Foot(h, t') ensures x in Foot(h1, t) - Own(h1, t.id) + Own(h, t.id) + Foot(h1, branch) {
      if x !in Own(h, t.id) {
        var j: nat :| j < |t'.kids| && x in Foot(h, t'.kids[j]);
        if j < |t.kids| {
          KidFoot(h1, t, j);
        }
      }
    }
    KidFoot(h, t', |t.kids|);
    forall x | x in Foot(h1, t) && x !in Own(h1, t.id) ensures x in Foot(h, t') {
      var j: nat :| j < |t.kids| && x in Foot(h1, t.kids[j]);
      KidFoot(h, t', j);
    }
  }

  lemma {:induction false} ForestGrows(h: Heap, t: Tree, branch: Tree)
    requires Repr(h, t) && t.Node? && Repr(h, branch) && Foot(h, branch) <= h.Keys
    requires Foot(h, branch) !! Foot(h, t)
    ensures Forest(h, t.kids) && Forest(h, t.kids + [branch])
  {
    KidsAreForest(h, t);
    var kids' := t.kids + [branch];
    forall j, k | 0 <= j < k < |kids'| ensures Foot(h, kids'[j]) !! Foot(h, kids'[k]) {
      KidFoot(h, t, j);
    }
  }

  // ----- whole calls -----

  /** A call that started in h0 and ended in h has turned t into t': in every state passed
      through, a power cut recovers t or t'; at the end the heap holds t'. */
  ghost predicate Turned(h0: Heap, tr0: seq<Heap>, h: Heap, tr: seq<Heap>, t: Tree, t': Tree) {
    && tr0 <= tr && Executed(h0, tr0, h, tr)
    && (forall k | |tr0| <= k < |tr| :: TreeStep(h0, tr[k], t, t'))
    && TreeStep(h0, h, t, t') && Recovers(h0, t, h, t')
  }

  /** The live blocks outside the tree are the same as before: nothing leaked, nothing lost. */
  ghost predicate Exchanged(h0: Heap, h: Heap, t: Tree, t': Tree) {
    h.Keys == h0.Keys - Foot(h0, t) + Foot(h, t')
  }

  lemma {:induction false} NothingDone(h: Heap, tr: seq<Heap>, t: Tree)
    requires Repr(h, t)
    ensures Turned(h, tr, h, tr, t, t) && Exchanged(h, h, t, t)
  {
    AtRest(h, h, t, t);
    ReprIsFixed(h, t);
    NothingExecuted(h, tr);
  }

  /** After a harmless first part, the rest of a call is a call from the start. */
  lemma {:induction false} TurnedAfter(h0: Heap, tr0: seq<Heap>, h1: Heap, tr1: seq<Heap>, h: Heap, tr: seq<Heap>,
        t: Tree, t': Tree)
    requires Turned(h0, tr0, h1, tr1, t, t) && Turned(h1, tr1, h, tr, t, t')
    requires h1.Keys == h0.Keys && Foot(h1, t) == Foot(h0, t)
    ensures Turned(h0, tr0, h, tr, t, t')
    ensures Exchanged(h1, h, t, t') ==> Exchanged(h0, h, t, t')
  {
    hide Executed;
    ExecutedThen(h0, tr0, h1, tr1, h, tr);
    forall k | |tr0| <= k < |tr| ensures TreeStep(h0, tr[k], t, t') {
      if k < |tr1| {
        assert tr[k] == tr1[k] && TreeStep(h0, tr1[k], t, t);
        StepMayTurn(h0, tr[k], t, t');
      } else {
        Rebase(h0, h1, tr[k], t, t');
      }
    }
    Rebase(h0, h1, h, t, t');
  }

  lemma {:induction false} StepMayTurn(h0: Heap, h: Heap, t: Tree, t': Tree)
    requires TreeStep(h0, h, t, t)
    ensures TreeStep(h0, h, t, t')
  {
  }

  /** A call on one child is a call on the parent. */
  lemma {:induction false} TurnedKid(h0: Heap, tr0: seq<Heap>, h: Heap, tr: seq<Heap>, t: Tree, i: nat, kid: Tree)
    requires Repr(h0, t) && t.Node? && i < |t.kids| && kid.id == t.kids[i].id
    requires Turned(h0, tr0, h, tr, t.kids[i], kid)
    ensures Turned(h0, tr0, h, tr, t, t.(kids := t.kids[i := kid]))
    ensures Exchanged(h0, h, t.kids[i], kid) ==> Exchanged(h0, h, t, t.(kids := t.kids[i := kid]))
  {
    hide Repr, Foot, CrashImage, Recovers, Executed;
    forall k | |tr0| <= k < |tr| ensures TreeStep(h0, tr[k], t, t.(kids := t.kids[i := kid])) {
      KidStep(h0, tr[k], t, i, kid);
    }
    KidStep(h0, h, t, i, kid);
    assert Stays(h0, h, Foot(h0, t) - Foot(h0, t.kids[i])) by {
      ReprIsFixed(h0, t);
    }
    ReplaceKid(h0, h, t, i, kid);
    if Exchanged(h0, h, t.kids[i], kid) {
      FootAfterKid(h0, h, t, i, kid);
    }
  }

  /** The parent's blocks after the exchange of one child. */
  lemma {:induction false} FootSwap(h0: Heap, h: Heap, t: Tree, i: nat, kid: Tree)
    requires t.Node? && i < |t.kids| && Unshared(h0, t) && Own(h, t.id) == Own(h0, t.id)
    requires forall j | 0 <= j < |t.kids| && j != i :: Foot(h, t.kids[j]) == Foot(h0, t.kids[j])
    ensures Foot(h, t.(kids := t.kids[i := kid])) == Foot(h0, t) - Foot(h0, t.kids[i]) + Foot(h, kid)
  {
    var t' := t.(kids := t.kids[i := kid]);
    forall x | x in Foot(h, t') ensures x in Foot(h0, t) - Foot(h0, t.kids[i]) + Foot(h, kid) {
      if x in Own(h, t.id) {
        assert Own(h0, t.id) !! Foot(h0, t.kids[i]);
      } else {
        var j: nat :| j < |t'.kids| && x in Foot(h, t'.kids[j]);
        if j != i {
          KidFoot(h0, t, j);
          assert Foot(h0, t.kids[i]) !! Foot(h0, t.kids[j]);
        }
      }
    }
    KidFoot(h, t', i);
    forall x | x in Foot(h0, t) && x !in Foot(h0, t.kids[i]) ensures x in Foot(h, t') {
      if x !in Own(h0, t.id) {
        var j: nat :| j < |t.kids| && x in Foot(h0, t.kids[j]);
        KidFoot(h, t', j);
      }
    }
  }

  lemma {:induction false} FootAfterKid(h0: Heap, h: Heap, t: Tree, i: nat, kid: Tree)
    requires Repr(h0, t) && t.Node? && i < |t.kids| && Frame(h0, h, Foot(h0, t.kids[i]))
    ensures Foot(h, t.(kids := t.kids[i := kid])) == Foot(h0, t) - Foot(h0, t.kids[i]) + Foot(h, kid)
    ensures Foot(h0, t) <= h0.Keys && Foot(h0, t.kids[i]) <= Foot(h0, t)
  {
    ReprIsFixed(h0, t);
    KidFoot(h0, t, i);
    assert Own(h, t.id) == Own(h0, t.id) by {
      assert Own(h0, t.id) !! Foot(h0, t.kids[i]);
      NodeStays(h0, h, t);
    }
    forall j: nat | j < |t.kids| && j != i ensures Foot(h, t.kids[j]) == Foot(h0, t.kids[j]) {
      SiblingStays(h0, h, t, i, j);
    }
    FootSwap(h0, h, t, i, kid);
  }

  // ----- calls that only read -----

  /** A call that read the tree: it may have repaired counters, and nothing else. */
  ghost predicate ReadTree(h0: Heap, tr0: seq<Heap>, h: Heap, tr: seq<Heap>, t: Tree) {
    && Repr(h, t) && Turned(h0, tr0, h, tr, t, t)
    && SameLive(h0, tr0, tr) && h.Keys == h0.Keys && Foot(h, t) == Foot(h0, t)
  }

  lemma {:induction false} NothingRead(h: Heap, tr: seq<Heap>, t: Tree)
    requires Repr(h, t)
    ensures ReadTree(h, tr, h, tr, t)
  {
    NothingDone(h, tr, t);
  }

  lemma {:induction false} ReadMore(h0: Heap, tr0: seq<Heap>, h1: Heap, tr1: seq<Heap>, h: Heap, tr: seq<Heap>, t: Tree)
    requires ReadTree(h0, tr0, h1, tr1, t) && ReadTree(h1, tr1, h, tr, t)
    ensures ReadTree(h0, tr0, h, tr, t)
  {
    SameLiveThen(h0, tr0, h1, tr1, tr);
    TurnedAfter(h0, tr0, h1, tr1, h, tr, t, t);
  }

  lemma {:induction false} ReadKid(h0: Heap, tr0: seq<Heap>, h: Heap, tr: seq<Heap>, t: Tree, i: nat)
    requires Repr(h0, t) && t.Node? && i < |t.kids| && ReadTree(h0, tr0, h, tr, t.kids[i])
    ensures ReadTree(h0, tr0, h, tr, t)
  {
    TurnedKid(h0, tr0, h, tr, t, i, t.kids[i]);
    KidReadFoot(h0, h, t, i);
  }

  lemma {:induction false} KidReadFoot(h0: Heap, h: Heap, t: Tree, i: nat)
    requires Repr(h0, t) && t.Node? && i < |t.kids| && Frame(h0, h, Foot(h0, t.kids[i]))
    requires Foot(h, t.kids[i]) == Foot(h0, t.kids[i])
    ensures Foot(h, t) == Foot(h0, t) && t.(kids := t.kids[i := t.kids[i]]) == t
  {
    assert t.kids[i := t.kids[i]] == t.kids;
    FootAfterKid(h0, h, t, i, t.kids[i]);
  }
}
