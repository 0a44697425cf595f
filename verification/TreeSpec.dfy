/** The decision tree as a value: what it stores, how an insertion changes it, what a query
    returns. */
module TreeSpec {
  import opened Pmem
  import opened PersistentPtr

  /** One step of an insertion key. */
  datatype Pair = Pair(key: Name, value: Name)

  type Path = seq<Pair>

  type Dict = map<Name, Name>

  /** `id` is the persistent id of the node; `value` is how the parent refers to it. */
  datatype Tree =
    | Leaf(id: Oid, value: Name, blob: Blob)
    | Node(id: Oid, key: Name, value: Name, kids: seq<Tree>)

  // ----- the flat list of entries -----

  datatype Entry = Entry(path: Path, id: Oid, blob: Blob)

  function Prefixed(step: Pair, e: Entry): Entry { Entry([step] + e.path, e.id, e.blob) }

  function Under(step: Pair, es: seq<Entry>): (r: seq<Entry>)
    ensures |r| == |es|
    ensures forall i | 0 <= i < |es| :: r[i] == Prefixed(step, es[i])
  {
    seq(|es|, i requires 0 <= i < |es| => Prefixed(step, es[i]))
  }

  /** The stored entries, in depth-first child order. */
  function Entries(t: Tree): seq<Entry>
    decreases t, 1
  {
    match t
    case Leaf(id, _, blob) => [Entry([], id, blob)]
    case Node(_, key, _, kids) => EntriesOf(key, kids)
  }

  function EntriesOf(key: Name, kids: seq<Tree>): seq<Entry>
    decreases kids, 0
  {
    if kids == [] then []
    else Under(Pair(key, kids[0].value), Entries(kids[0])) + EntriesOf(key, kids[1..])
  }

  // ----- insertion -----

  /** A fresh branch that holds one entry: ids[j] is the node at depth j. */
  function Chain(value: Name, path: Path, blob: Blob, ids: seq<Oid>): Tree
    requires |ids| == |path| + 1
    decreases |path|
  {
    if path == [] then Leaf(ids[0], value, blob)
    else Node(ids[0], path[0].key, value, [Chain(path[0].value, path[1..], blob, ids[1..])])
  }

  /** The first child with this value; |kids| if there is none. */
  function Find(kids: seq<Tree>, value: Name): (i: nat)
    ensures i <= |kids|
    ensures i < |kids| ==> kids[i].value == value
    ensures forall j | 0 <= j < i :: kids[j].value != value
  {
    if kids == [] || kids[0].value == value then 0 else 1 + Find(kids[1..], value)
  }

  datatype InsertResult = Inserted(tree: Tree) | Refused(why: Outcome)

  /** ids[j] names the new node at depth j + 1, for the depths where one is created. */
  function Insert(t: Tree, p: Path, blob: Blob, ids: seq<Oid>): InsertResult
    requires |ids| == |p|
    decreases t
  {
    if p == [] || t.Leaf? || t.key != p[0].key then Refused(AssertionFailed)
    else
      var i := Find(t.kids, p[0].value);
      if i == |t.kids| then Inserted(t.(kids := t.kids + [Chain(p[0].value, p[1..], blob, ids)]))
      else if t.kids[i].Leaf? then Refused(LeafExists)
      else
        match Insert(t.kids[i], p[1..], blob, ids[1..])
        case Inserted(kid) => Inserted(t.(kids := t.kids[i := kid]))
        case Refused(why) => Refused(why)
  }

  // ----- queries -----

  /** Children are filtered where the request names the node's key, and all followed where it
      does not. */
  function Lookup(t: Tree, request: Dict): seq<Oid>
    requires t.Node?
    decreases t, 1
  {
    LookupOf(t.key, t.kids, request)
  }

  function LookupOf(key: Name, kids: seq<Tree>, request: Dict): seq<Oid>
    decreases kids, 0
  {
    if kids == [] then []
    else LookupKid(key, kids[0], request) + LookupOf(key, kids[1..], request)
  }

  function LookupKid(key: Name, kid: Tree, request: Dict): seq<Oid>
    decreases kid, 2
  {
    if key in request && kid.value != request[key] then []
    else if kid.Leaf? then [kid.id]
    else Lookup(kid, request)
  }

  // ----- the invariant of a tree that insertions have built -----

  /** Interior nodes have children, and the children of one node have different values. */
  ghost predicate WellFormed(t: Tree) {
    t.Node? ==>
      && t.kids != []
      && (forall i, j | 0 <= i < j < |t.kids| :: t.kids[i].value != t.kids[j].value)
      && forall i | 0 <= i < |t.kids| :: WellFormed(t.kids[i])
  }

  // ----- reference definitions -----

  /** The stored path says nothing that the request contradicts. */
  predicate Agrees(p: Path, request: Dict) {
    forall i | 0 <= i < |p| :: p[i].key in request ==> request[p[i].key] == p[i].value
  }

  /** The ids of the entries that agree with the request, in order. */
  function Matching(es: seq<Entry>, request: Dict): seq<Oid> {
    if es == [] then []
    else (if Agrees(es[0].path, request) then [es[0].id] else []) + Matching(es[1..], request)
  }

  /** No element comes twice. */
  ghost predicate Once<T>(s: seq<T>) { forall i, j | 0 <= i < j < |s| :: s[i] != s[j] }

  /** s' is s with the elements of `piece` put in together at one place. */
  ghost predicate Spliced<T>(s: seq<T>, s': seq<T>, piece: seq<T>) {
    exists k {:trigger s[..k]} :: 0 <= k <= |s| && s' == s[..k] + piece + s[k..]
  }

  /** s is what is left of s' when some elements are taken out. */
  ghost predicate Subsequence<T>(s: seq<T>, s': seq<T>)
    decreases |s'|
  {
    s == [] || (s' != [] && ((s[0] == s'[0] && Subsequence(s[1..], s'[1..])) || Subsequence(s, s'[1..])))
  }

  /** At the first step where the two paths differ, both go on, they name the same key, and
      they choose different values. */
  ghost predicate Branches(p: Path, q: Path) {
    exists i: nat :: BranchesAt(p, q, i)
  }

  ghost predicate BranchesAt(p: Path, q: Path, i: nat) {
    i < |p| && i < |q| && p[..i] == q[..i] && p[i].key == q[i].key && p[i].value != q[i].value
  }
}
