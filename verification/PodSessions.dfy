/** Whole runs of a PersistentPODVector: with any number of power cuts, at any step of a call and
    between calls, every store torn in any way; and without, for its growth. */
module PodSessions {
  import opened Pmem
  import opened PersistentPtr
  import opened PersistentPODVector
  import opened Runs

  /** One call: append a value, or make space for some more than there are. `torn` gives the mixtures
      of bytes that the store of x may leave. */
  datatype Op = Put(x: Blob, torn: set<Blob>) | Widen(more: nat)

  predicate Callable(op: Op) { op.Widen? ==> op.more >= 1 }

  predicate Matches(op: Op, attempt: Attempt<Blob>) {
    match op
    case Put(x, _) => attempt.NotMade? || (!attempt.Reserve? && attempt.x == x)
    case Widen(_) => attempt.NotMade? || attempt.Reserve?
  }

  ghost function InFlight(op: Op): set<Blob> { if op.Put? then {op.x} else {} }

  ghost function Outgoing(op: Op, st: Outcome, vals: seq<Blob>): seq<Blob> {
    if op.Put? && st == Done then vals + [op.x] else vals
  }

  /** The number of slots after a call that returned, and of the elements it copied. */
  ghost predicate Sized(op: Op, len: nat, cap: nat, cap': nat, copied: nat) {
    if op.Widen? then cap' == len + op.more else GrowsBy(len, cap, len + 1, cap', copied)
  }

  method Perform(pool: Pool, owner: Oid, op: Op, ghost vals: seq<Blob>) returns (st: Outcome, ghost copied: nat)
    requires PodRepr(pool.heap, owner, vals) && Callable(op)
    modifies pool
    ensures st in {Done, AllocationFailed} && old(pool.trace) <= pool.trace
    ensures forall k | |old(pool.trace)| <= k < |pool.trace| ::
              PodStep(old(pool.heap), pool.trace[k], owner, vals, InFlight(op))
    ensures PodRepr(pool.heap, owner, Outgoing(op, st, vals))
    ensures Executed(old(pool.heap), old(pool.trace), pool.heap, pool.trace)
    ensures pool.refusals == old(pool.refusals) + Refusal(st)
    ensures st == Done ==>
              Sized(op, |vals|, AllocatedSize(old(pool.heap), owner), AllocatedSize(pool.heap, owner), copied)
    ensures st == Done && op.Put? ==>
              EndsWithPush(old(pool.heap), old(pool.trace), pool.trace, DataOf(pool.heap, owner), |vals|, op.x, op.torn)
  {
    hide PodStep, PodOk, Executed, EndsWithPush;
    match op {
      case Put(x, torn) =>
        st, copied := PushBack(pool, owner, x, torn, vals);
      case Widen(more) =>
        st, copied := Resize(pool, owner, Size(pool.heap, owner, vals) + more, vals);
    }
  }

  // ----- runs -----

  /** One call as it was made: its steps, and how it would have ended had the power held, having
      copied so many elements. */
  datatype Log = Log(steps: seq<Heap>, end: Heap, st: Outcome, copied: nat)

  /** The call itself, begun in h: recorded steps to its end, the last four of them those of the push
      with this tearing, and what every push and resize promises there. */
  ghost predicate CallMade(owner: Oid, op: Op, h: Heap, vals: seq<Blob>, log: Log) {
    && PodRepr(h, owner, vals) && Executed(h, [], log.end, log.steps)
    && log.st in {Done, AllocationFailed} && PodRepr(log.end, owner, Outgoing(op, log.st, vals))
    && (log.st == Done ==>
          Sized(op, |vals|, AllocatedSize(h, owner), AllocatedSize(log.end, owner), log.copied))
    && (log.st == Done && op.Put? ==>
          EndsWithPush(h, [], log.steps, DataOf(log.end, owner), |vals|, op.x, op.torn))
  }

  /** How the run sees call i: the power supply decides whether it was made and whether it was cut,
      and what it leaves. */
  ghost predicate Lived(power: Power, i: nat, owner: Oid, op: Op, attempt: Attempt<Blob>, h: Heap, h': Heap,
                        vals: seq<Blob>, log: Log)
  {
    exists supply :: LivedUnder(supply, power, i, owner, op, attempt, h, h', vals, log)
  }

  ghost predicate LivedUnder(supply: Supply, power: Power, i: nat, owner: Oid, op: Op, attempt: Attempt<Blob>,
                             h: Heap, h': Heap, vals: seq<Blob>, log: Log)
  {
    && Supplied(power, i, h, log.steps, log.end, h', supply)
    && match supply
       case CutBefore => attempt == NotMade && log.st == Done
       case CutDuring =>
         CallMade(owner, op, h, vals, log) && attempt == if op.Widen? then Reserve else PowerCut(op.x)
       case Held =>
         && CallMade(owner, op, h, vals, log)
         && attempt == if op.Widen? then Reserve else if log.st == Done then Completed(op.x) else Failed(op.x)
  }

  /** The allocations refused in all these calls. */
  ghost function Refusals(logs: seq<Log>): nat {
    if logs == [] then 0 else Refusals(logs[..|logs| - 1]) + Refusal(logs[|logs| - 1].st)
  }

  /** The states of a call, seen on their own. */
  lemma {:induction false} PushAlone(h0: Heap, tr0: seq<Heap>, tr: seq<Heap>, v: Oid, n: nat, x: Blob, torn: set<Blob>)
    requires EndsWithPush(h0, tr0, tr, v, n, x, torn)
    ensures EndsWithPush(h0, [], tr[|tr0|..], v, n, x, torn)
  {
    hide PushedStates;
    var steps := tr[|tr0|..];
    assert StateAt(h0, |tr0|, tr, |tr| - 4) == StateAt(h0, 0, steps, |steps| - 4);
    assert steps[|steps| - 4..] == tr[|tr| - 4..];
  }

  method PerformOrCut(pool: Pool, owner: Oid, op: Op, i: nat, power: Power, ghost vals: seq<Blob>)
    returns (attempt: Attempt<Blob>, ghost after: seq<Blob>, ghost log: Log)
    requires PodRepr(pool.heap, owner, vals) && Callable(op)
    modifies pool
    ensures Matches(op, attempt) && Follows(vals, attempt, after) && PodRepr(pool.heap, owner, after)
    ensures Lived(power, i, owner, op, attempt, old(pool.heap), pool.heap, vals, log)
    ensures pool.refusals == old(pool.refusals) + Refusal(log.st)
  {
    hide PodStep, PodOk, CrashImage, Executed, EndsWithPush, Sized;
    ghost var h0, tr0 := pool.heap, pool.trace;
    var idle := power(Before(i), [pool.heap]);
    if IsCut([pool.heap], idle) {
      PodAtRestIsStep(h0, owner, vals);
      PodStepImage(h0, h0, idle.value, owner, vals, {});
      pool.PowerCut(h0, idle.value);
      attempt, after, log := NotMade, vals, Log([], h0, Done, 0);
      assert LivedUnder(CutBefore, power, i, owner, op, attempt, h0, pool.heap, vals, log);
      return;
    }
    var before := |pool.trace|;
    var st;
    ghost var copied;
    st, copied := Perform(pool, owner, op, vals);
    ExecutedAlone(h0, tr0, pool.heap, pool.trace);
    if st == Done && op.Put? {
      PushAlone(h0, tr0, pool.trace, DataOf(pool.heap, owner), |vals|, op.x, op.torn);
    }
    attempt := if op.Widen? then Reserve else if st == Done then Completed(op.x) else Failed(op.x);
    after := Outgoing(op, st, vals);
    var steps := pool.trace[before..];
    log := Log(steps, pool.heap, st, copied);
    assert CallMade(owner, op, h0, vals, log);
    var choice := power(During(i), steps);
    if IsCut(steps, choice) {
      ghost var k: nat :| k < |steps| && CrashImage(steps[k], choice.value);
      assert steps[k] == pool.trace[before + k];
      PodStepImage(h0, steps[k], choice.value, owner, vals, InFlight(op));
      pool.PowerCut(steps[k], choice.value);
      attempt := if op.Widen? then Reserve else PowerCut(op.x);
      after := if PodRepr(pool.heap, owner, vals) then vals else vals + [op.x];
      assert LivedUnder(CutDuring, power, i, owner, op, attempt, h0, pool.heap, vals, log);
    } else {
      assert LivedUnder(Held, power, i, owner, op, attempt, h0, pool.heap, vals, log);
    }
  }

  /** A run: `heaps[i]` and `contents[i]` are the pool and the vector before call i. */
  datatype Run = Run(attempts: seq<Attempt<Blob>>, contents: seq<seq<Blob>>, heaps: seq<Heap>, logs: seq<Log>)

  /** So far each call has been made and cut exactly as the supply says, and the contents form a run. */
  ghost predicate Ran(power: Power, owner: Oid, ops: seq<Op>, run: Run) {
    var n := |run.logs|;
    && n <= |ops| && |run.attempts| == n && |run.heaps| == n + 1 && IsRun(run.contents, run.attempts)
    && (forall i | 0 <= i <= n :: PodRepr(run.heaps[i], owner, run.contents[i]))
    && (forall i | 0 <= i < n :: Matches(ops[i], run.attempts[i]))
    && forall i | 0 <= i < n ::
         Lived(power, i, owner, ops[i], run.attempts[i], run.heaps[i], run.heaps[i + 1], run.contents[i], run.logs[i])
  }

  ghost function Longer(run: Run, attempt: Attempt<Blob>, after: seq<Blob>, h: Heap, log: Log): Run {
    Run(run.attempts + [attempt], run.contents + [after], run.heaps + [h], run.logs + [log])
  }

  lemma {:induction false} RanLonger(power: Power, owner: Oid, ops: seq<Op>, run: Run, attempt: Attempt<Blob>,
        after: seq<Blob>, h: Heap, log: Log)
    requires Ran(power, owner, ops, run) && |run.logs| < |ops| && PodRepr(h, owner, after)
    requires var i := |run.logs|;
             && Matches(ops[i], attempt) && Follows(run.contents[i], attempt, after)
             && Lived(power, i, owner, ops[i], attempt, run.heaps[i], h, run.contents[i], log)
    ensures Ran(power, owner, ops, Longer(run, attempt, after, h, log))
    ensures Refusals(Longer(run, attempt, after, h, log).logs) == Refusals(run.logs) + Refusal(log.st)
  {
    hide Lived, PodRepr, Follows, Matches;
    assert (run.logs + [log])[..|run.logs|] == run.logs;
  }

  /** For every sequence of calls and every behaviour of the power supply, at any step of a call and
      between calls: each call is made and cut exactly as the supply says, the vector reopens valid
      with no repair scan, and its contents form a run. */
  method PerformAll(pool: Pool, owner: Oid, ops: seq<Op>, power: Power, ghost vals: seq<Blob>)
    returns (attempts: seq<Attempt<Blob>>, ghost run: Run)
    requires PodRepr(pool.heap, owner, vals) && forall op | op in ops :: Callable(op)
    modifies pool
    ensures Ran(power, owner, ops, run) && |run.logs| == |ops| && run.attempts == attempts
    ensures run.contents[0] == vals && run.heaps[0] == old(pool.heap) && run.heaps[|ops|] == pool.heap
    ensures pool.refusals == old(pool.refusals) + Refusals(run.logs)
  {
    hide Follows, PodOk, Lived;
    attempts := [];
    run := Run([], [vals], [pool.heap], []);
    for i := 0 to |ops|
      invariant Ran(power, owner, ops, run) && |run.logs| == i && run.attempts == attempts
      invariant run.contents[0] == vals && run.heaps[0] == old(pool.heap) && run.heaps[i] == pool.heap
      invariant pool.refusals == old(pool.refusals) + Refusals(run.logs)
    {
      assert ops[i] in ops;
      var attempt;
      ghost var after, log;
      attempt, after, log := PerformOrCut(pool, owner, ops[i], i, power, run.contents[i]);
      RanLonger(power, owner, ops, run, attempt, after, pool.heap, log);
      attempts, run := attempts + [attempt], Longer(run, attempt, after, pool.heap, log);
    }
  }

  // ----- growth -----

  ghost function SlotsBefore(owner: Oid, run: Run, i: nat): nat
    requires i < |run.heaps| && i < |run.contents| && PodRepr(run.heaps[i], owner, run.contents[i])
  {
    AllocatedSize(run.heaps[i], owner)
  }

  /** A run of completed pushes onto any vector grows it as `GrowthIsAmortised` says. */
  lemma {:induction false} RunGrows(power: Power, owner: Oid, ops: seq<Op>, run: Run)
    returns (copies: seq<nat>)
    requires Ran(power, owner, ops, run) && run.logs != []
    requires forall i | 0 <= i < |run.logs| :: run.attempts[i].Completed?
    ensures |copies| == |run.logs| && forall i | 0 <= i < |copies| :: copies[i] == run.logs[i].copied
    ensures var n := |run.logs|;
            var c := if SlotsBefore(owner, run, 0) == 0 then 1 else SlotsBefore(owner, run, 0);
            && |run.contents[n]| == |run.contents[0]| + n
            && LeastDoubling(c, |run.contents[n]|, SlotsBefore(owner, run, n))
            && Sum(copies) + c == SlotsBefore(owner, run, n) && Sum(copies) < 2 * |run.contents[n]|
  {
    hide PodOk, LeastDoubling, Lived, GrowsBy;
    var n := |run.logs|;
    copies := seq(n, i requires 0 <= i < n => run.logs[i].copied);
    var lens: seq<nat> := seq(n + 1, i requires 0 <= i <= n => |run.contents[i]|);
    var caps: seq<nat> := seq(n + 1, i requires 0 <= i <= n => SlotsBefore(owner, run, i));
    forall i | 0 <= i < n ensures GrowsBy(lens[i], caps[i], lens[i + 1], caps[i + 1], copies[i]) {
      CompletedCall(power, owner, ops, run, i);
    }
    LengthFits(run.heaps[0], owner, run.contents[0]);
    Runs.GrowthIsAmortised(lens, caps, copies);
  }

  lemma {:induction false} CompletedCall(power: Power, owner: Oid, ops: seq<Op>, run: Run, i: nat)
    requires Ran(power, owner, ops, run) && i < |run.logs| && run.attempts[i].Completed?
    ensures !ops[i].Widen? && |run.contents[i + 1]| == |run.contents[i]| + 1
    ensures Sized(ops[i], |run.contents[i]|, SlotsBefore(owner, run, i), SlotsBefore(owner, run, i + 1),
                  run.logs[i].copied)
  {
    hide PodOk, Sized, Executed, IsCut;
    var h, h', log := run.heaps[i], run.heaps[i + 1], run.logs[i];
    assert Follows(run.contents[i], run.attempts[i], run.contents[i + 1]);
    assert Lived(power, i, owner, ops[i], run.attempts[i], h, h', run.contents[i], log);
    var supply :| LivedUnder(supply, power, i, owner, ops[i], run.attempts[i], h, h', run.contents[i], log);
    assert supply == Held && h' == log.end;
  }

  lemma {:induction false} LengthFits(h: Heap, owner: Oid, vals: seq<Blob>)
    requires PodRepr(h, owner, vals)
    ensures |vals| <= AllocatedSize(h, owner)
  {
  }
}
