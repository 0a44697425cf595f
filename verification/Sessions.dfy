/** Whole runs of the decision tree: with any number of power cuts, at any step of any call and
    between calls; and without any, for the count of its blocks. */
module Sessions {
  import opened Pmem
  import opened PersistentPtr
  import opened TreeSpec
  import opened TreeFacts
  import opened TreeHeap
  import opened TreeBlocks
  import opened TreeSchema
  import opened TreeMap
  import opened TreeRoot
  import opened TreeObject

  datatype Call = Insert(key: Dict, blob: Blob) | Query(request: Dict)

  /** How a call went: an insertion returned or threw; a query returned these leaves; the power was
      cut at a step of the call, before it had returned; or the power was cut while no call was under
      way, all earlier ones having returned, and this one was never made. */
  datatype Fate = Ended(st: Outcome) | Answered(found: seq<Oid>) | PowerFailed | NotMade

  // ----- runs as values -----

  /** What the pool holds between two calls; `fragile` says that a power cut could still find its
      root pointer null. */
  datatype Snapshot = Snapshot(entries: seq<Entry>, fragile: bool) {
    ghost function Contents(): map<Dict, Blob> { Table(entries) }
  }

  /** Before call i the pool was as shots[i]. */
  ghost predicate IsRun(keys: seq<Name>, calls: seq<Call>, fates: seq<Fate>, shots: seq<Snapshot>) {
    |calls| >= |fates| && |shots| == |fates| + 1
    && (forall i | 0 <= i <= |fates| :: shots[i].fragile || shots[i].entries != [])
    && forall i | 0 <= i < |fates| :: Follows(keys, calls[i], fates[i], shots[i], shots[i + 1])
  }

  ghost predicate Follows(keys: seq<Name>, c: Call, f: Fate, s: Snapshot, s': Snapshot) {
    match f
    case Ended(st) =>
      && c.Insert? && s'.fragile == s.fragile
      && st in {Done, UserError, AssertionFailed, LeafExists, AllocationFailed}
      && (st == UserError <==> c.key.Keys != KeySet(keys))
      && (st == AssertionFailed <==> keys == [] && c.key == map[])
      && (st == LeafExists <==> c.key in s.Contents())
      && if st == Done then Stores(keys, c, s, s') else s'.entries == s.entries
    case Answered(found) => c.Query? && s' == s && found == Matching(s.entries, c.request) && Once(found)
    case PowerFailed => (s'.entries == s.entries || Stores(keys, c, s, s') || Lost(s, s')) && Opened(s')
    case NotMade => (s'.entries == s.entries || Lost(s, s')) && Opened(s')
  }

  /** The call has put its entry in: a map update, with every old entry where it was. */
  ghost predicate Stores(keys: seq<Name>, c: Call, s: Snapshot, s': Snapshot) {
    && c.Insert? && c.key !in s.Contents() && s'.Contents() == s.Contents()[c.key := c.blob]
    && Added(s.entries, s'.entries, keys, c.key, c.blob)
  }

  ghost predicate Lost(s: Snapshot, s': Snapshot) { s.fragile && s'.entries == [] }

  /** A pool just opened is fragile only if it is empty. */
  ghost predicate Opened(s: Snapshot) { s.fragile <==> s.entries == [] }

  /** The power cut at call j has lost everything. */
  ghost predicate Wiped(shots: seq<Snapshot>, j: nat)
    requires j + 1 < |shots|
  {
    shots[j].entries != [] && shots[j + 1].entries == []
  }

  lemma {:induction false} AddedGrows(es: seq<Entry>, es': seq<Entry>, keys: seq<Name>, d: Dict, blob: Blob)
    requires Added(es, es', keys, d, blob)
    ensures es' != [] && Subsequence(es, es')
  {
    var e: Entry :| e.path == PathOf(keys, d) && e.blob == blob && Spliced(es, es', [e]);
    SplicedIsSubsequence(es, es', e);
  }

  /** From the moment the root pointer is durable it stays so, and nothing is ever lost again; one
      power cut that finds the tree is enough. */
  lemma {:induction false} DurableForGood(keys: seq<Name>, calls: seq<Call>, fates: seq<Fate>,
        shots: seq<Snapshot>, i: nat, n: nat)
    requires IsRun(keys, calls, fates, shots) && i <= n <= |fates|
    requires !shots[i].fragile || (i > 0 && fates[i - 1] in {PowerFailed, NotMade} && shots[i].entries != [])
    ensures !shots[n].fragile && forall j: nat | i <= j < n :: !Wiped(shots, j)
    decreases n
  {
    hide Added, Matching, Table;
    if i > 0 {
      assert Follows(keys, calls[i - 1], fates[i - 1], shots[i - 1], shots[i]);
    }
    if i < n {
      DurableForGood(keys, calls, fates, shots, i, n - 1);
      assert Follows(keys, calls[n - 1], fates[n - 1], shots[n - 1], shots[n]);
      assert shots[n - 1].entries != [];
      if shots[n].entries != shots[n - 1].entries {
        AddedGrows(shots[n - 1].entries, shots[n].entries, keys, calls[n - 1].key, calls[n - 1].blob);
      }
    }
  }

  /** One call that loses nothing. */
  lemma {:induction false} StepKeeps(keys: seq<Name>, c: Call, f: Fate, s: Snapshot, s': Snapshot)
    requires Follows(keys, c, f, s, s') && !(s.entries != [] && s'.entries == [])
    ensures Subsequence(s.entries, s'.entries)
    ensures forall d | d in s.Contents() :: d in s'.Contents() && s'.Contents()[d] == s.Contents()[d]
    ensures f == Ended(Done) ==> c.Insert? && c.key in s'.Contents() && s'.Contents()[c.key] == c.blob
  {
    if s'.entries == s.entries || s.entries == [] {
      SubsequenceSelf(s.entries);
    } else {
      AddedGrows(s.entries, s'.entries, keys, c.key, c.blob);
    }
  }

  lemma {:induction false} NotWiped(shots: seq<Snapshot>, j: nat)
    requires j + 1 < |shots| && !Wiped(shots, j)
    ensures !(shots[j].entries != [] && shots[j + 1].entries == [])
  {
  }

  /** Between two moments with no such loss: no entry is lost or changed, all keep their order and
      their leaves, and every insertion that returned is there. */
  lemma {:induction false} RunKeepsEntries(keys: seq<Name>, calls: seq<Call>, fates: seq<Fate>,
        shots: seq<Snapshot>, i: nat, n: nat)
    requires IsRun(keys, calls, fates, shots) && i <= n <= |fates|
    requires forall j: nat | i <= j < n :: !Wiped(shots, j)
    ensures Subsequence(shots[i].entries, shots[n].entries)
    ensures forall d | d in shots[i].Contents() ::
              d in shots[n].Contents() && shots[n].Contents()[d] == shots[i].Contents()[d]
    ensures forall j | i <= j < n && fates[j] == Ended(Done) ::
              calls[j].Insert? && calls[j].key in shots[n].Contents()
              && shots[n].Contents()[calls[j].key] == calls[j].blob
    decreases n
  {
    hide Table, Subsequence, Follows, Wiped;
    SubsequenceSelf(shots[i].entries);
    if i < n {
      RunKeepsEntries(keys, calls, fates, shots, i, n - 1);
      assert Follows(keys, calls[n - 1], fates[n - 1], shots[n - 1], shots[n]);
      assert !Wiped(shots, n - 1);
      NotWiped(shots, n - 1);
      StepKeeps(keys, calls[n - 1], fates[n - 1], shots[n - 1], shots[n]);
      SubsequenceChain(shots[i].entries, shots[n - 1].entries, shots[n].entries);
    }
  }

  /** So the same query asked again answers with what it answered before, in the same order, and
      perhaps more; and every leaf it has named is still the leaf of an entry. */
  lemma {:induction false} AnswersOnlyGrow(keys: seq<Name>, calls: seq<Call>, fates: seq<Fate>,
        shots: seq<Snapshot>, i: nat, n: nat)
    requires IsRun(keys, calls, fates, shots) && i <= n <= |fates| && i < |fates| && fates[i].Answered?
    requires forall j: nat | i <= j < n :: !Wiped(shots, j)
    ensures calls[i].Query? && Subsequence(fates[i].found, Matching(shots[n].entries, calls[i].request))
    ensures n < |fates| && fates[n].Answered? && calls[n] == calls[i] ==> Subsequence(fates[i].found, fates[n].found)
    ensures forall x | x in fates[i].found :: exists e :: e in shots[n].entries && e.id == x
  {
    hide Subsequence, Table;
    RunKeepsEntries(keys, calls, fates, shots, i, n);
    assert Follows(keys, calls[i], fates[i], shots[i], shots[i + 1]);
    var es, request := shots[i].entries, calls[i].request;
    MatchingGrows(es, shots[n].entries, request);
    if n < |fates| && fates[n].Answered? {
      assert Follows(keys, calls[n], fates[n], shots[n], shots[n + 1]);
    }
    forall x | x in fates[i].found ensures exists e :: e in shots[n].entries && e.id == x {
      var e := MatchingComesFrom(es, request, x);
      SubsequenceKeeps(es, shots[n].entries, e);
    }
  }

  lemma {:induction false} MatchingComesFrom(es: seq<Entry>, request: Dict, x: Oid) returns (e: Entry)
    requires x in Matching(es, request)
    ensures e in es && e.id == x && Agrees(e.path, request)
    decreases |es|
  {
    if Agrees(es[0].path, request) && x == es[0].id {
      e := es[0];
    } else {
      e := MatchingComesFrom(es[1..], request, x);
    }
  }

  /** Losses or not, nothing appears that no call was storing. */
  lemma {:induction false} RunInventsNothing(keys: seq<Name>, calls: seq<Call>, fates: seq<Fate>,
        shots: seq<Snapshot>, n: nat, d: Dict)
    requires IsRun(keys, calls, fates, shots) && n <= |fates| && d in shots[n].Contents()
    ensures || (d in shots[0].Contents() && shots[0].Contents()[d] == shots[n].Contents()[d])
            || exists j :: 0 <= j < n && fates[j] in {Ended(Done), PowerFailed}
                           && calls[j] == Insert(d, shots[n].Contents()[d])
    decreases n
  {
    if n > 0 {
      assert Follows(keys, calls[n - 1], fates[n - 1], shots[n - 1], shots[n]);
      if d in shots[n - 1].Contents() && shots[n - 1].Contents()[d] == shots[n].Contents()[d] {
        RunInventsNothing(keys, calls, fates, shots, n - 1, d);
      } else {
        assert calls[n - 1] == Insert(d, shots[n].Contents()[d]);
      }
    }
  }

  // ----- runs in which every call is made and no allocation fails -----

  /** Call j stores d unless it is already there. */
  ghost predicate Names(keys: seq<Name>, c: Call, d: Dict) {
    c.Insert? && c.key == d && d.Keys == KeySet(keys) && keys != []
  }

  ghost predicate Unnamed(keys: seq<Name>, calls: seq<Call>, n: nat, d: Dict)
    requires n <= |calls|
  {
    forall j | 0 <= j < n :: !Names(keys, calls[j], d)
  }

  /** What n such calls make of the map m: it keeps what it had, and of each dictionary over the
      schema that they name and it had not, it has the blob of the first. An insertion is Done exactly
      when it is that first. */
  ghost predicate FirstOnesWin(keys: seq<Name>, calls: seq<Call>, fates: seq<Fate>, n: nat,
                               m: map<Dict, Blob>, m': map<Dict, Blob>)
    requires n <= |fates| <= |calls|
  {
    && (forall d :: d in m' <==> d in m || !Unnamed(keys, calls, n, d))
    && (forall d | d in m :: d in m' && m'[d] == m[d])
    && forall j | 0 <= j < n && calls[j].Insert? ::
         var d := calls[j].key;
         && (fates[j] == Ended(Done) <==> d !in m && Names(keys, calls[j], d) && Unnamed(keys, calls, j, d))
         && (fates[j] == Ended(Done) ==> d in m' && m'[d] == calls[j].blob)
  }

  /** One such call on the map. */
  ghost predicate FirstWins(keys: seq<Name>, c: Call, f: Fate, m: map<Dict, Blob>, m': map<Dict, Blob>) {
    && (forall d :: d in m' <==> d in m || Names(keys, c, d))
    && (forall d | d in m :: d in m' && m'[d] == m[d])
    && (c.Insert? ==>
          && (f == Ended(Done) <==> c.key !in m && Names(keys, c, c.key))
          && (f == Ended(Done) ==> c.key in m' && m'[c.key] == c.blob))
  }

  lemma {:induction false} PlainCall(keys: seq<Name>, c: Call, f: Fate, s: Snapshot, s': Snapshot)
    requires Follows(keys, c, f, s, s')
    requires f.Answered? || (f.Ended? && f.st != AllocationFailed)
    ensures FirstWins(keys, c, f, s.Contents(), s'.Contents())
  {
    hide Table, Added, Matching;
    if c.Insert? && keys == [] && c.key.Keys == KeySet(keys) {
      assert c.key.Keys == {} && c.key == map[];
    }
  }

  lemma {:induction false} OneMorePlain(keys: seq<Name>, calls: seq<Call>, fates: seq<Fate>, n: nat,
        m0: map<Dict, Blob>, m: map<Dict, Blob>, m': map<Dict, Blob>)
    requires n < |fates| <= |calls| && FirstOnesWin(keys, calls, fates, n, m0, m)
    requires FirstWins(keys, calls[n], fates[n], m, m')
    ensures FirstOnesWin(keys, calls, fates, n + 1, m0, m')
  {
    hide Names;
    forall d ensures Unnamed(keys, calls, n + 1, d) <==> Unnamed(keys, calls, n, d) && !Names(keys, calls[n], d) {}
  }

  lemma {:induction false} PlainRun(keys: seq<Name>, calls: seq<Call>, fates: seq<Fate>, shots: seq<Snapshot>, n: nat)
    requires IsRun(keys, calls, fates, shots) && n <= |fates|
    requires forall i | 0 <= i < n :: fates[i].Answered? || (fates[i].Ended? && fates[i].st != AllocationFailed)
    ensures FirstOnesWin(keys, calls, fates, n, shots[0].Contents(), shots[n].Contents())
    decreases n
  {
    hide Table, Follows, FirstWins;
    if n > 0 {
      PlainRun(keys, calls, fates, shots, n - 1);
      PlainCall(keys, calls[n - 1], fates[n - 1], shots[n - 1], shots[n]);
      OneMorePlain(keys, calls, fates, n - 1, shots[0].Contents(), shots[n - 1].Contents(), shots[n].Contents());
    }
  }

  // ----- runs of the pool -----

  ghost function Shot(h: Heap, root: Oid, held: Option<Tree>): Snapshot
    requires root in h && h[root].RootBlock?
  {
    Snapshot(StoredIn(held), RootMayBeNull(h, root))
  }

  lemma {:induction false} EmptyIff(h: Heap, root: Oid, held: Option<Tree>, keys: seq<Name>)
    requires RootRepr(h, root, held) && Built(held, keys)
    ensures h[root].ptr.now == NULL <==> held.None?
    ensures held.None? <==> StoredIn(held) == []
    ensures Shot(h, root, held).fragile || Shot(h, root, held).entries != []
  {
    if held.Some? {
      HasEntry(held.value);
    }
  }

  /** The pool reopened on what a power cut at a step of a call has left. */
  lemma {:induction false} Reopened(h0: Heap, h: Heap, image: Heap, root: Oid, keys: seq<Name>,
        held: Option<Tree>, held': Option<Tree>) returns (found: Option<Tree>)
    requires RootRepr(h0, root, held) && Built(held, keys) && Built(held', keys)
    requires RootStep(h0, h, root, held, held') && CrashImage(h, image)
    ensures RootRepr(image, root, found) && Built(found, keys)
    ensures found in {held, held'} || (found.None? && RootMayBeNull(h0, root))
    ensures Opened(Shot(image, root, found))
  {
    hide Repr, Foot;
    found := if RootRepr(image, root, held) then held else if RootRepr(image, root, held') then held' else None;
    assert BlockImage(h[root], image[root]);
    EmptyIff(image, root, found, keys);
  }

  /** A power cut while no call is under way is a power cut at a step that changes nothing. */
  lemma {:induction false} RestIsStep(h: Heap, root: Oid, held: Option<Tree>)
    requires RootRepr(h, root, held)
    ensures RootStep(h, h, root, held, held)
  {
    hide Repr, Foot;
    forall h': Heap | CrashImage(h, h')
      ensures RootRepr(h', root, held) || (RootMayBeNull(h, root) && RootRepr(h', root, None))
    {
      RootImage(h, h', root);
      if held.Some? {
        PublishedImage(h, h', root, held.value);
      }
    }
  }

  /** The status that a call leaves its caller with. */
  function Status(f: Fate): Outcome { if f.Ended? then f.st else Done }

  /** One call that returns. */
  method Make(handle: TreeObject, call: Call) returns (fate: Fate)
    requires handle.Valid()
    modifies handle, handle.pool
    ensures handle.Valid() && old(handle.pool.trace) <= handle.pool.trace
    ensures fate.Ended? || fate.Answered?
    ensures Follows(handle.schema.keys, call, fate, Shot(old(handle.pool.heap), handle.root, old(handle.held)),
                    Shot(handle.pool.heap, handle.root, handle.held))
    ensures Conserved(Status(fate), old(handle.pool.heap), handle.pool.heap, handle.root, old(handle.held), handle.held)
    ensures forall k | |old(handle.pool.trace)| <= k < |handle.pool.trace| ::
              RootStep(old(handle.pool.heap), handle.pool.trace[k], handle.root, old(handle.held), handle.held)
    ensures Executed(old(handle.pool.heap), old(handle.pool.trace), handle.pool.heap, handle.pool.trace)
    ensures handle.pool.refusals == old(handle.pool.refusals) + Refusal(Status(fate))
  {
    hide MapStep, RootStep, Built, StoredIn, Added, Repr, Foot, Conserved, Executed;
    ghost var h0, tr0 := handle.pool.heap, handle.pool.trace;
    match call {
      case Insert(key, blob) =>
        var st := handle.AddNode(key, blob);
        fate := Ended(st);
      case Query(request) =>
        var found := handle.Lookup(request);
        fate := Answered(found);
        ReadConserves(h0, tr0, handle.pool.heap, handle.pool.trace, handle.root, handle.schema.keys, handle.held);
    }
  }

  lemma {:induction false} ReadConserves(h0: Heap, tr0: seq<Heap>, h: Heap, tr: seq<Heap>, root: Oid,
        keys: seq<Name>, held: Option<Tree>)
    requires OnlyRead(h0, tr0, h, tr, root, keys, held)
    ensures Conserved(Done, h0, h, root, held, held)
  {
    if held.Some? {
      ReprIsFixed(h0, held.value);
    }
  }

  /** One call as it was made: its steps, and how it would have ended had the power held. */
  datatype Log = Log(steps: seq<Heap>, end: Heap, fate: Fate, held: Option<Tree>)

  /** The call itself, begun in h on the tree `held`: recorded steps to its end, and what an insertion
      or a query promises there. */
  ghost predicate CallMade(keys: seq<Name>, root: Oid, call: Call, h: Heap, held: Option<Tree>, log: Log) {
    && RootRepr(h, root, held) && RootRepr(log.end, root, log.held)
    && Executed(h, [], log.end, log.steps) && (log.fate.Ended? || log.fate.Answered?)
    && Follows(keys, call, log.fate, Shot(h, root, held), Shot(log.end, root, log.held))
    && Conserved(Status(log.fate), h, log.end, root, held, log.held)
  }

  /** How the run sees call i: the power supply decides whether it was made and whether it was cut,
      and what it leaves. */
  ghost predicate Lived(power: Power, i: nat, keys: seq<Name>, root: Oid, call: Call, fate: Fate,
                        h: Heap, h': Heap, held: Option<Tree>, log: Log)
  {
    exists supply :: LivedUnder(supply, power, i, keys, root, call, fate, h, h', held, log)
  }

  ghost predicate LivedUnder(supply: Supply, power: Power, i: nat, keys: seq<Name>, root: Oid, call: Call,
                             fate: Fate, h: Heap, h': Heap, held: Option<Tree>, log: Log)
  {
    && Supplied(power, i, h, log.steps, log.end, h', supply)
    && match supply
       case CutBefore => fate == NotMade && Status(log.fate) == Done
       case CutDuring => CallMade(keys, root, call, h, held, log) && fate == PowerFailed
       case Held => CallMade(keys, root, call, h, held, log) && fate == log.fate
  }

  /** The allocations refused in all these calls. */
  ghost function Refusals(logs: seq<Log>): nat {
    if logs == [] then 0 else Refusals(logs[..|logs| - 1]) + Refusal(Status(logs[|logs| - 1].fate))
  }

  /** One call, and perhaps a power cut at one of its steps or instead of it. */
  method CallOrCut(pool: Pool, root: Oid, schema: Schema, i: nat, call: Call, power: Power, ghost held: Option<Tree>)
    returns (fate: Fate, ghost held': Option<Tree>, ghost log: Log)
    requires RootRepr(pool.heap, root, held) && Distinct(schema.keys) && Built(held, schema.keys)
    modifies pool
    ensures RootRepr(pool.heap, root, held') && Built(held', schema.keys)
    ensures Follows(schema.keys, call, fate, Shot(old(pool.heap), root, held), Shot(pool.heap, root, held'))
    ensures Lived(power, i, schema.keys, root, call, fate, old(pool.heap), pool.heap, held, log)
    ensures pool.refusals == old(pool.refusals) + Refusal(Status(log.fate))
  {
    hide RootStep, CrashImage, Built, StoredIn, Added, Repr, Foot, Conserved, Executed;
    ghost var h0, tr0, keys := pool.heap, pool.trace, schema.keys;
    EmptyIff(h0, root, held, keys);
    var idle := power(Before(i), [pool.heap]);
    if IsCut([pool.heap], idle) {
      RestIsStep(h0, root, held);
      held' := Reopened(h0, h0, idle.value, root, keys, held, held);
      EmptyIff(idle.value, root, held', keys);
      pool.PowerCut(h0, idle.value);
      fate, log := NotMade, Log([], h0, Answered([]), held);
      assert LivedUnder(CutBefore, power, i, keys, root, call, fate, h0, pool.heap, held, log);
      return;
    }
    var handle := new TreeObject(pool, root, schema, held);
    var before := |pool.trace|;
    fate := Make(handle, call);
    ExecutedAlone(h0, tr0, pool.heap, pool.trace);
    held' := handle.held;
    var steps := pool.trace[before..];
    log := Log(steps, pool.heap, fate, held');
    assert CallMade(keys, root, call, h0, held, log);
    var choice := power(During(i), steps);
    if IsCut(steps, choice) {
      ghost var k: nat :| k < |steps| && CrashImage(steps[k], choice.value);
      assert steps[k] == pool.trace[before + k];
      held' := Reopened(h0, steps[k], choice.value, root, keys, held, handle.held);
      EmptyIff(choice.value, root, held', keys);
      pool.PowerCut(steps[k], choice.value);
      fate := PowerFailed;
      assert LivedUnder(CutDuring, power, i, keys, root, call, fate, h0, pool.heap, held, log);
    } else {
      assert LivedUnder(Held, power, i, keys, root, call, fate, h0, pool.heap, held, log);
    }
  }

  /** A run: `heaps[i]`, `helds[i]` and `shots[i]` are the pool, its tree and what it stores before call i. */
  datatype Run = Run(fates: seq<Fate>, shots: seq<Snapshot>, helds: seq<Option<Tree>>, heaps: seq<Heap>,
                     logs: seq<Log>)

  /** So far each call has been made and cut exactly as the supply says, and what the pool stores and
      answers forms a run. */
  ghost predicate Ran(power: Power, keys: seq<Name>, root: Oid, calls: seq<Call>, run: Run) {
    var n := |run.logs|;
    && |run.fates| == n && |run.heaps| == |run.helds| == n + 1 && IsRun(keys, calls, run.fates, run.shots)
    && (forall i | 0 <= i <= n ::
          RootRepr(run.heaps[i], root, run.helds[i]) && run.shots[i] == Shot(run.heaps[i], root, run.helds[i]))
    && forall i | 0 <= i < n ::
         Lived(power, i, keys, root, calls[i], run.fates[i], run.heaps[i], run.heaps[i + 1], run.helds[i], run.logs[i])
  }

  ghost function Longer(run: Run, fate: Fate, held: Option<Tree>, h: Heap, root: Oid, log: Log): Run
    requires root in h && h[root].RootBlock?
  {
    Run(run.fates + [fate], run.shots + [Shot(h, root, held)], run.helds + [held], run.heaps + [h], run.logs + [log])
  }

  lemma {:induction false} RanLonger(power: Power, keys: seq<Name>, root: Oid, calls: seq<Call>, run: Run, fate: Fate,
        held: Option<Tree>, h: Heap, log: Log)
    requires Ran(power, keys, root, calls, run) && |run.logs| < |calls| && RootRepr(h, root, held) && Built(held, keys)
    requires var i := |run.logs|;
             && Follows(keys, calls[i], fate, run.shots[i], Shot(h, root, held))
             && Lived(power, i, keys, root, calls[i], fate, run.heaps[i], h, run.helds[i], log)
    ensures Ran(power, keys, root, calls, Longer(run, fate, held, h, root, log))
    ensures Refusals(Longer(run, fate, held, h, root, log).logs) == Refusals(run.logs) + Refusal(Status(log.fate))
  {
    EmptyIff(h, root, held, keys);
    LongerRan(power, keys, root, calls, run, fate, held, h, log);
  }

  lemma {:induction false} LongerRan(power: Power, keys: seq<Name>, root: Oid, calls: seq<Call>, run: Run, fate: Fate,
        held: Option<Tree>, h: Heap, log: Log)
    requires Ran(power, keys, root, calls, run) && |run.logs| < |calls| && RootRepr(h, root, held)
    requires var s := Shot(h, root, held); s.fragile || s.entries != []
    requires var i := |run.logs|;
             && Follows(keys, calls[i], fate, run.shots[i], Shot(h, root, held))
             && Lived(power, i, keys, root, calls[i], fate, run.heaps[i], h, run.helds[i], log)
    ensures Ran(power, keys, root, calls, Longer(run, fate, held, h, root, log))
    ensures Refusals(Longer(run, fate, held, h, root, log).logs) == Refusals(run.logs) + Refusal(Status(log.fate))
  {
    hide Lived, Follows, Repr, Foot, StoredIn;
    assert (run.logs + [log])[..|run.logs|] == run.logs;
  }

  /** For every sequence of insertions and queries and every behaviour of the power supply, at any
      step of a call and between calls (after the last is before one that is never made), from an
      empty pool or any other: each call is made and cut exactly as the supply says, the pool always
      reopens, and what it holds and answers forms a run. At the end every stored entry can be read
      through its leaf. */
  method Session(pool: Pool, root: Oid, schema: Schema, calls: seq<Call>, power: Power, ghost held0: Option<Tree>)
    returns (fates: seq<Fate>, ghost run: Run)
    requires RootRepr(pool.heap, root, held0) && Distinct(schema.keys) && Built(held0, schema.keys)
    modifies pool
    ensures Ran(power, schema.keys, root, calls, run) && |run.logs| == |calls| && run.fates == fates
    ensures run.heaps[0] == old(pool.heap) && run.helds[0] == held0 && run.heaps[|calls|] == pool.heap
    ensures pool.refusals == old(pool.refusals) + Refusals(run.logs)
    ensures Built(run.helds[|calls|], schema.keys)
    ensures forall e | e in run.shots[|calls|].entries :: Gives(pool.heap, e.id, e.blob)
  {
    hide Built, StoredIn, Repr, Foot, Follows, Lived;
    ghost var held := held0;
    fates, run := [], Run([], [Shot(pool.heap, root, held)], [held], [pool.heap], []);
    EmptyIff(pool.heap, root, held, schema.keys);
    for i := 0 to |calls|
      invariant Ran(power, schema.keys, root, calls, run) && |run.logs| == i && run.fates == fates
      invariant run.heaps[0] == old(pool.heap) && run.helds[0] == held0
      invariant run.heaps[i] == pool.heap && run.helds[i] == held && Built(held, schema.keys)
      invariant pool.refusals == old(pool.refusals) + Refusals(run.logs)
    {
      var fate;
      ghost var log;
      fate, held, log := CallOrCut(pool, root, schema, i, calls[i], power, held);
      RanLonger(power, schema.keys, root, calls, run, fate, held, pool.heap, log);
      fates, run := fates + [fate], Longer(run, fate, held, pool.heap, root, log);
    }
    AllAreGiven(pool.heap, root, held);
  }

  lemma {:induction false} AllAreGiven(h: Heap, root: Oid, held: Option<Tree>)
    requires RootRepr(h, root, held)
    ensures forall e | e in StoredIn(held) :: Gives(h, e.id, e.blob)
  {
    forall e | e in StoredIn(held) ensures Gives(h, e.id, e.blob) {
      EntryData(h, held.value, e);
    }
  }

  // ----- runs without power cuts -----

  function Nodes(held: Option<Tree>): nat {
    match held
    case None => 0
    case Some(t) => NodeCount(t)
  }

  /** The live blocks that are not the tree's. */
  ghost function Outside(h: Heap, held: Option<Tree>): set<Oid> { h.Keys - Used(h, held) }

  lemma {:induction false} BlocksAreCounted(h: Heap, root: Oid, keys: seq<Name>, held: Option<Tree>)
    requires RootRepr(h, root, held) && Built(held, keys)
    ensures |h.Keys| == |Outside(h, held)| + 2 * Nodes(held)
  {
    assert Used(h, held) <= h.Keys by {
      if held.Some? {
        ReprIsFixed(h, held.value);
      }
    }
    assert |Used(h, held)| == 2 * Nodes(held) by {
      if held.Some? {
        TwoBlocksPerNode(h, held.value);
      }
    }
    DisjointSize(Outside(h, held), Used(h, held));
    assert Outside(h, held) + Used(h, held) == h.Keys;
  }

  lemma {:induction false} OutsideIsKept(st: Outcome, h0: Heap, h: Heap, root: Oid, held: Option<Tree>,
        held': Option<Tree>)
    requires RootRepr(h0, root, held) && RootRepr(h, root, held') && Conserved(st, h0, h, root, held, held')
    requires st != AllocationFailed
    ensures Outside(h, held') == Outside(h0, held)
  {
  }

  lemma {:induction false} CallKeeps(keys: seq<Name>, call: Call, fate: Fate, h0: Heap, h: Heap, root: Oid,
        held: Option<Tree>, held': Option<Tree>)
    requires root in h0 && h0[root].RootBlock? && root in h && h[root].RootBlock?
    requires (fate.Ended? || fate.Answered?) && Follows(keys, call, fate, Shot(h0, root, held), Shot(h, root, held'))
    ensures Subsequence(StoredIn(held), StoredIn(held'))
  {
    if fate == Ended(Done) {
      AddedGrows(StoredIn(held), StoredIn(held'), keys, call.key, call.blob);
    } else {
      SubsequenceSelf(StoredIn(held));
    }
  }

  /** Over any run of insertions and queries, accepted or refused, while the power holds: each call is
      made, and what the object stores and answers forms a run, so entries and answers only grow. If no
      allocation fails, the outcomes and the final map are those of `FirstOnesWin`, the blocks outside
      the tree are the same ones, and the tree has two for each of its nodes. Nothing leaks. */
  method Uninterrupted(handle: TreeObject, calls: seq<Call>)
    returns (fates: seq<Fate>, ghost shots: seq<Snapshot>)
    requires handle.Valid()
    modifies handle, handle.pool
    ensures handle.Valid() && |fates| == |calls| && IsRun(handle.schema.keys, calls, fates, shots)
    ensures forall fate | fate in fates :: fate.Ended? || fate.Answered?
    ensures shots[0] == Shot(old(handle.pool.heap), handle.root, old(handle.held))
    ensures shots[|calls|] == Shot(handle.pool.heap, handle.root, handle.held)
    ensures Executed(old(handle.pool.heap), old(handle.pool.trace), handle.pool.heap, handle.pool.trace)
    ensures handle.pool.refusals == old(handle.pool.refusals) <==> Ended(AllocationFailed) !in fates
    ensures forall request ::
              Subsequence(Matching(old(StoredIn(handle.held)), request), Matching(StoredIn(handle.held), request))
    ensures Ended(AllocationFailed) !in fates ==>
              && FirstOnesWin(handle.schema.keys, calls, fates, |calls|, old(handle.Contents()), handle.Contents())
              && Outside(handle.pool.heap, handle.held) == old(Outside(handle.pool.heap, handle.held))
              && |handle.pool.heap.Keys| == |old(Outside(handle.pool.heap, handle.held))| + 2 * Nodes(handle.held)
  {
    hide Conserved, Follows, RootStep, Used, Repr, Foot, Built, StoredIn, Subsequence, Matching, Executed;
    hide FirstOnesWin;
    ghost var keys, hs, trs := handle.schema.keys, handle.pool.heap, handle.pool.trace;
    ghost var es0 := StoredIn(handle.held);
    fates, shots := [], [Shot(handle.pool.heap, handle.root, handle.held)];
    EmptyIff(handle.pool.heap, handle.root, handle.held, keys);
    SubsequenceSelf(es0);
    NothingExecuted(hs, trs);
    for i := 0 to |calls|
      invariant handle.Valid() && |fates| == i && Subsequence(es0, StoredIn(handle.held))
      invariant IsRun(keys, calls, fates, shots) && forall fate | fate in fates :: fate.Ended? || fate.Answered?
      invariant shots[0] == Shot(hs, handle.root, old(handle.held))
      invariant shots[i] == Shot(handle.pool.heap, handle.root, handle.held)
      invariant Executed(hs, trs, handle.pool.heap, handle.pool.trace)
      invariant old(handle.pool.refusals) <= handle.pool.refusals
      invariant handle.pool.refusals == old(handle.pool.refusals) <==> Ended(AllocationFailed) !in fates
      invariant Ended(AllocationFailed) !in fates ==>
                  Outside(handle.pool.heap, handle.held) == old(Outside(handle.pool.heap, handle.held))
    {
      ghost var h0, tr0, held0 := handle.pool.heap, handle.pool.trace, handle.held;
      var fate := Make(handle, calls[i]);
      ExecutedThen(hs, trs, h0, tr0, handle.pool.heap, handle.pool.trace);
      CallKeeps(keys, calls[i], fate, h0, handle.pool.heap, handle.root, held0, handle.held);
      SubsequenceChain(es0, StoredIn(held0), StoredIn(handle.held));
      EmptyIff(handle.pool.heap, handle.root, handle.held, keys);
      fates, shots := fates + [fate], shots + [Shot(handle.pool.heap, handle.root, handle.held)];
      if Status(fate) != AllocationFailed {
        OutsideIsKept(Status(fate), h0, handle.pool.heap, handle.root, held0, handle.held);
      }
    }
    BlocksAreCounted(handle.pool.heap, handle.root, keys, handle.held);
    forall request ensures Subsequence(Matching(es0, request), Matching(StoredIn(handle.held), request)) {
      MatchingGrows(es0, StoredIn(handle.held), request);
    }
    if Ended(AllocationFailed) !in fates {
      forall i | 0 <= i < |fates| ensures fates[i].Answered? || (fates[i].Ended? && fates[i].st != AllocationFailed) {
        assert fates[i] in fates;
      }
      PlainRun(keys, calls, fates, shots, |calls|);
    }
  }
}
