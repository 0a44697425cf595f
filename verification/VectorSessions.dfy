/** Whole runs of a PersistentVector: with any number of power cuts, at any step of a call and
    between calls; and without, for its growth. */
module VectorSessions {
  import opened Pmem
  import opened PersistentPtr
  import opened VectorSpec
  import PersistentVector
  import opened Runs

  /** One call: append an existing object, append a new one, or make space for some more than
      there are. */
  datatype Op = Elem(x: Oid) | Ctr(elem: Block) | Grow(more: nat)

  ghost predicate Callable(op: Op) {
    match op
    case Elem(x) => x != NULL
    case Ctr(elem) => ConstructionDurable(elem)
    case Grow(more) => more >= 1
  }

  ghost function Flying(op: Op, st: Outcome, x: Oid): set<Oid> {
    if op.Grow? then {} else PersistentVector.InFlight(st, x)
  }

  ghost function Outgoing(op: Op, st: Outcome, x: Oid, kids: seq<Oid>): seq<Oid> {
    if op.Grow? || st != Done then kids else kids + [x]
  }

  /** The object x, made by a call that returned, is live; and in no state passed through does
      the vector name it before it is. */
  ghost predicate Made(h: Heap, tr0: seq<Heap>, tr: seq<Heap>, owner: Oid, kids: seq<Oid>, x: Oid, elem: Block)
    requires owner in h && HasPtr(h[owner])
  {
    && x != owner && x != DataOf(h, owner) && x in h && h[x] == elem
    && forall k | |tr0| <= k < |tr| :: Backed(tr[k], owner, kids, x, elem)
  }

  /** The number of slots after a call that returned, and of the elements it copied. */
  ghost predicate Sized(op: Op, len: nat, cap: nat, cap': nat, copied: nat) {
    if op.Grow? then cap' == len + op.more
    else GrowsBy(len, cap, len + 1, cap', copied)
  }

  method Perform(pool: Pool, owner: Oid, op: Op, ghost kids: seq<Oid>)
    returns (st: Outcome, x: Oid, ghost copied: nat)
    requires VecRepr(pool.heap, owner, kids) && Callable(op)
    modifies pool
    ensures st in {Done, AllocationFailed} && old(pool.trace) <= pool.trace && (op.Elem? ==> x == op.x)
    ensures NULL !in Flying(op, st, x)
    ensures forall k | |old(pool.trace)| <= k < |pool.trace| ::
              VecStep(old(pool.heap), pool.trace[k], owner, kids, Flying(op, st, x))
    ensures VecStep(old(pool.heap), pool.heap, owner, kids, Flying(op, st, x))
    ensures VecRepr(pool.heap, owner, Outgoing(op, st, x, kids))
    ensures op.Ctr? && st == Done ==>
              Made(pool.heap, old(pool.trace), pool.trace, owner, kids, x, op.elem)
    ensures Executed(old(pool.heap), old(pool.trace), pool.heap, pool.trace)
    ensures pool.refusals == old(pool.refusals) + Refusal(st)
    ensures st == Done ==>
              Sized(op, |kids|, PersistentVector.AllocatedSize(old(pool.heap), owner),
                    PersistentVector.AllocatedSize(pool.heap, owner), copied)
  {
    hide VecStep, VecOk, Backed, Executed;
    ghost var h0, tr0 := pool.heap, pool.trace;
    x := NULL;
    match op {
      case Elem(given) =>
        x := given;
        st, copied := PersistentVector.PushBackElem(pool, owner, given, kids);
        if st != Done {
          PersistentVector.ReadOnlySteps(h0, tr0, pool.heap, pool.trace, owner, kids);
        }
      case Ctr(elem) =>
        st, x, copied := PersistentVector.PushBackCtr(pool, owner, elem, kids);
      case Grow(more) =>
        st, copied := ResizeBy(pool, owner, more, kids);
    }
  }

  method ResizeBy(pool: Pool, owner: Oid, more: nat, ghost kids: seq<Oid>) returns (st: Outcome, ghost copied: nat)
    requires VecRepr(pool.heap, owner, kids) && more >= 1
    modifies pool
    ensures st in {Done, AllocationFailed} && old(pool.trace) <= pool.trace
    ensures VecRepr(pool.heap, owner, kids) && VecStep(old(pool.heap), pool.heap, owner, kids, {})
    ensures forall k | |old(pool.trace)| <= k < |pool.trace| :: VecStep(old(pool.heap), pool.trace[k], owner, kids, {})
    ensures Executed(old(pool.heap), old(pool.trace), pool.heap, pool.trace)
    ensures pool.refusals == old(pool.refusals) + Refusal(st)
    ensures st == Done ==> PersistentVector.AllocatedSize(pool.heap, owner) == |kids| + more
  {
    hide VecStep, VecOk, Executed;
    ghost var h0, tr0 := pool.heap, pool.trace;
    var n := PersistentVector.Size(pool, owner, kids);
    PersistentVector.ReadOnlySteps(h0, tr0, pool.heap, pool.trace, owner, kids);
    ghost var h1, tr1 := pool.heap, pool.trace;
    st, copied := PersistentVector.Resize(pool, owner, n + more, kids);
    ExecutedThen(h0, tr0, h1, tr1, pool.heap, pool.trace);
    if st != Done {
      PersistentVector.ReadOnlySteps(h1, tr1, pool.heap, pool.trace, owner, kids);
    }
    forall k | |tr1| <= k < |pool.trace| ensures VecStep(h0, pool.trace[k], owner, kids, {}) {
      PersistentVector.AfterRead(h0, tr0, h1, tr1, pool.trace[k], owner, kids, {});
    }
    PersistentVector.AfterRead(h0, tr0, h1, tr1, pool.heap, owner, kids, {});
  }

  // ----- one call, and perhaps a power cut at one of its steps -----

  predicate Matches(op: Op, attempt: Attempt<Oid>) {
    match op
    case Elem(x) => attempt.NotMade? || (!attempt.Reserve? && attempt.x == x)
    case Ctr(_) => !attempt.Reserve?
    case Grow(_) => attempt.NotMade? || attempt.Reserve?
  }

  /** If the call put a new object into the vector, that object is live; and whole, if it is of
      a type whose constructor writes all of it. */
  ghost predicate Standing(h: Heap, owner: Oid, op: Op, attempt: Attempt<Oid>, before: seq<Oid>, after: seq<Oid>)
    requires Matches(op, attempt) && owner in h && HasPtr(h[owner])
  {
    op.Ctr? && !attempt.NotMade? && after != before ==>
      var x := attempt.x;
      x != owner && x != DataOf(h, owner) && x in h && (Fixed(op.elem) ==> h[x] == op.elem)
  }

  /** Blocks that are neither the owner nor its slot array are as they were. */
  ghost predicate Undisturbed(h0: Heap, h: Heap, owner: Oid)
    requires owner in h0 && HasPtr(h0[owner]) && owner in h && HasPtr(h[owner])
  {
    forall x | x in h0 && x != owner && x != DataOf(h0, owner) ::
      x in h && x != DataOf(h, owner) && (Fixed(h0[x]) ==> h[x] == h0[x])
  }

  lemma {:induction false} StepDisturbsNothing(h0: Heap, h: Heap, h': Heap, owner: Oid, kids: seq<Oid>, xs: set<Oid>)
    requires VecRepr(h0, owner, kids) && VecStep(h0, h, owner, kids, xs) && Quiet(h, h')
    ensures owner in h' && HasPtr(h'[owner]) && Undisturbed(h0, h', owner)
  {
    assert h'[owner] == h[owner];
  }

  lemma {:induction false} StillStanding(h0: Heap, h: Heap, owner: Oid, op: Op, attempt: Attempt<Oid>,
        before: seq<Oid>, after: seq<Oid>)
    requires owner in h0 && HasPtr(h0[owner]) && owner in h && HasPtr(h[owner]) && Undisturbed(h0, h, owner)
    requires Matches(op, attempt) && Standing(h0, owner, op, attempt, before, after)
    ensures Standing(h, owner, op, attempt, before, after)
  {
  }

  /** The vector reopened on what a power cut has left. */
  lemma {:induction false} Reopened(h0: Heap, h: Heap, image: Heap, owner: Oid, op: Op, st: Outcome, x: Oid,
        kids: seq<Oid>) returns (after: seq<Oid>)
    requires VecRepr(h0, owner, kids) && VecStep(h0, h, owner, kids, Flying(op, st, x)) && CrashImage(h, image)
    requires NULL !in Flying(op, st, x) && (op.Elem? ==> x == op.x)
    requires op.Ctr? && st == Done ==> Backed(h, owner, kids, x, op.elem)
    ensures VecRepr(image, owner, after) && Undisturbed(h0, image, owner)
    ensures var attempt := if op.Grow? then Reserve else PowerCut(x);
            Follows(kids, attempt, after) && Standing(image, owner, op, attempt, kids, after)
  {
    CutIsQuiet(h, image);
    StepDisturbsNothing(h0, h, image, owner, kids, Flying(op, st, x));
    VecStepImage(h0, h, image, owner, kids, Flying(op, st, x));
    after := if VecRepr(image, owner, kids) then kids else kids + [x];
    if op.Ctr? && after != kids {
      BackedImage(h, image, owner, kids, x, op.elem);
      if Fixed(op.elem) {
        FixedBlockImage(op.elem, image[x]);
      }
    }
  }

  /** A power cut while no call is under way: the vector is at rest, and nothing is lost. */
  lemma {:induction false} CutAtRest(h: Heap, image: Heap, owner: Oid, kids: seq<Oid>)
    requires VecRepr(h, owner, kids) && CrashImage(h, image)
    ensures VecRepr(image, owner, kids) && Undisturbed(h, image, owner)
  {
    AtRestIsStep(h, owner, kids, {});
    CutIsQuiet(h, image);
    StepDisturbsNothing(h, h, image, owner, kids, {});
    VecStepImage(h, h, image, owner, kids, {});
  }

  // ----- runs -----

  /** One call as it was made: its steps, and how it would have ended had the power held, having
      copied so many elements. */
  datatype Log = Log(steps: seq<Heap>, end: Heap, st: Outcome, x: Oid, copied: nat)

  /** The call itself, begun in h: recorded steps to its end, and what every push and resize
      promises there. */
  ghost predicate CallMade(owner: Oid, op: Op, h: Heap, kids: seq<Oid>, log: Log) {
    && VecRepr(h, owner, kids) && Executed(h, [], log.end, log.steps)
    && log.st in {Done, AllocationFailed} && (op.Elem? ==> log.x == op.x)
    && VecRepr(log.end, owner, Outgoing(op, log.st, log.x, kids))
    && (log.st == Done ==>
          Sized(op, |kids|, PersistentVector.AllocatedSize(h, owner),
                PersistentVector.AllocatedSize(log.end, owner), log.copied))
    && (log.st == Done && op.Ctr? ==> log.x in log.end && log.end[log.x] == op.elem)
  }

  /** How the run sees call i: the power supply decides whether it was made and whether it was cut,
      and what it leaves. */
  ghost predicate Lived(power: Power, i: nat, owner: Oid, op: Op, attempt: Attempt<Oid>, h: Heap, h': Heap,
                        kids: seq<Oid>, log: Log)
  {
    exists supply :: LivedUnder(supply, power, i, owner, op, attempt, h, h', kids, log)
  }

  ghost predicate LivedUnder(supply: Supply, power: Power, i: nat, owner: Oid, op: Op, attempt: Attempt<Oid>,
                             h: Heap, h': Heap, kids: seq<Oid>, log: Log)
  {
    && Supplied(power, i, h, log.steps, log.end, h', supply)
    && match supply
       case CutBefore => attempt == NotMade && log.st == Done
       case CutDuring =>
         CallMade(owner, op, h, kids, log) && attempt == if op.Grow? then Reserve else PowerCut(log.x)
       case Held =>
         && CallMade(owner, op, h, kids, log)
         && attempt == if op.Grow? then Reserve else if log.st == Done then Completed(log.x) else Failed(log.x)
  }

  /** The allocations refused in all these calls. */
  ghost function Refusals(logs: seq<Log>): nat {
    if logs == [] then 0 else Refusals(logs[..|logs| - 1]) + Refusal(logs[|logs| - 1].st)
  }

  /** One call, and perhaps a power cut at one of its steps or instead of it. */
  method PerformOrCut(pool: Pool, owner: Oid, op: Op, i: nat, power: Power, ghost kids: seq<Oid>)
    returns (attempt: Attempt<Oid>, ghost after: seq<Oid>, ghost log: Log)
    requires VecRepr(pool.heap, owner, kids) && Callable(op)
    modifies pool
    ensures Matches(op, attempt) && Follows(kids, attempt, after) && VecRepr(pool.heap, owner, after)
    ensures Standing(pool.heap, owner, op, attempt, kids, after) && Undisturbed(old(pool.heap), pool.heap, owner)
    ensures Lived(power, i, owner, op, attempt, old(pool.heap), pool.heap, kids, log)
    ensures pool.refusals == old(pool.refusals) + Refusal(log.st)
  {
    hide VecStep, VecOk, CrashImage, Backed, Undisturbed, Executed, Sized;
    ghost var h0, tr0 := pool.heap, pool.trace;
    var idle := power(Before(i), [pool.heap]);
    if IsCut([pool.heap], idle) {
      CutAtRest(h0, idle.value, owner, kids);
      pool.PowerCut(h0, idle.value);
      attempt, after, log := NotMade, kids, Log([], h0, Done, NULL, 0);
      assert LivedUnder(CutBefore, power, i, owner, op, attempt, h0, pool.heap, kids, log);
      return;
    }
    var before := |pool.trace|;
    var st, x;
    ghost var copied;
    st, x, copied := Perform(pool, owner, op, kids);
    ExecutedAlone(h0, tr0, pool.heap, pool.trace);
    StepDisturbsNothing(h0, pool.heap, pool.heap, owner, kids, Flying(op, st, x));
    attempt := if op.Grow? then Reserve else if st == Done then Completed(x) else Failed(x);
    after := Outgoing(op, st, x, kids);
    var steps := pool.trace[before..];
    log := Log(steps, pool.heap, st, x, copied);
    assert CallMade(owner, op, h0, kids, log);
    var choice := power(During(i), steps);
    if IsCut(steps, choice) {
      ghost var k: nat :| k < |steps| && CrashImage(steps[k], choice.value);
      assert steps[k] == pool.trace[before + k];
      after := Reopened(h0, steps[k], choice.value, owner, op, st, x, kids);
      pool.PowerCut(steps[k], choice.value);
      attempt := if op.Grow? then Reserve else PowerCut(x);
      assert LivedUnder(CutDuring, power, i, owner, op, attempt, h0, pool.heap, kids, log);
    } else {
      assert LivedUnder(Held, power, i, owner, op, attempt, h0, pool.heap, kids, log);
    }
  }

  /** A run: `heaps[i]` and `contents[i]` are the pool and the vector before call i. */
  datatype Run = Run(attempts: seq<Attempt<Oid>>, contents: seq<seq<Oid>>, heaps: seq<Heap>, logs: seq<Log>)

  /** So far each call has been made and cut exactly as the supply says, and the contents form a run. */
  ghost predicate Ran(power: Power, owner: Oid, ops: seq<Op>, run: Run) {
    var n := |run.logs|;
    && n <= |ops| && |run.attempts| == n && |run.heaps| == n + 1 && IsRun(run.contents, run.attempts)
    && (forall i | 0 <= i <= n :: VecRepr(run.heaps[i], owner, run.contents[i]))
    && (forall i | 0 <= i < n :: Matches(ops[i], run.attempts[i]))
    && forall i | 0 <= i < n ::
         Lived(power, i, owner, ops[i], run.attempts[i], run.heaps[i], run.heaps[i + 1], run.contents[i], run.logs[i])
  }

  ghost function Longer(run: Run, attempt: Attempt<Oid>, after: seq<Oid>, h: Heap, log: Log): Run {
    Run(run.attempts + [attempt], run.contents + [after], run.heaps + [h], run.logs + [log])
  }

  lemma {:induction false} RanLonger(power: Power, owner: Oid, ops: seq<Op>, run: Run, attempt: Attempt<Oid>,
        after: seq<Oid>, h: Heap, log: Log)
    requires Ran(power, owner, ops, run) && |run.logs| < |ops| && VecRepr(h, owner, after)
    requires var i := |run.logs|;
             && Matches(ops[i], attempt) && Follows(run.contents[i], attempt, after)
             && Lived(power, i, owner, ops[i], attempt, run.heaps[i], h, run.contents[i], log)
    ensures Ran(power, owner, ops, Longer(run, attempt, after, h, log))
    ensures Refusals(Longer(run, attempt, after, h, log).logs) == Refusals(run.logs) + Refusal(log.st)
  {
    hide Lived, VecRepr, Follows, Matches;
    assert (run.logs + [log])[..|run.logs|] == run.logs;
  }

  /** Every object made for the vector by a call and found in it is live. */
  ghost predicate AllStand(h: Heap, owner: Oid, ops: seq<Op>, run: Run)
    requires |run.attempts| == |run.logs| <= |ops| && |run.contents| == |run.logs| + 1
    requires owner in h && HasPtr(h[owner])
    requires forall i | 0 <= i < |run.logs| :: Matches(ops[i], run.attempts[i])
  {
    forall i | 0 <= i < |run.logs| ::
      Standing(h, owner, ops[i], run.attempts[i], run.contents[i], run.contents[i + 1])
  }

  lemma {:induction false} AllStandLonger(power: Power, h0: Heap, h: Heap, owner: Oid, ops: seq<Op>, run: Run,
        attempt: Attempt<Oid>, after: seq<Oid>, log: Log)
    requires Ran(power, owner, ops, run) && Ran(power, owner, ops, Longer(run, attempt, after, h, log))
    requires owner in h0 && HasPtr(h0[owner]) && owner in h && HasPtr(h[owner]) && Undisturbed(h0, h, owner)
    requires AllStand(h0, owner, ops, run)
    requires var i := |run.logs|;
             && i < |ops| && Matches(ops[i], attempt)
             && Standing(h, owner, ops[i], attempt, run.contents[i], after)
    ensures AllStand(h, owner, ops, Longer(run, attempt, after, h, log))
  {
    hide Undisturbed, Standing, Lived, VecRepr;
    var more := Longer(run, attempt, after, h, log);
    forall i | 0 <= i < |more.logs|
      ensures Standing(h, owner, ops[i], more.attempts[i], more.contents[i], more.contents[i + 1])
    {
      if i < |run.logs| {
        StillStanding(h0, h, owner, ops[i], run.attempts[i], run.contents[i], run.contents[i + 1]);
      }
    }
  }

  /** For every sequence of calls and every behaviour of the power supply, at any step of a call
      and between calls (after the last is before one that is never made): each call is made and cut
      exactly as the supply says, the vector reopens valid, its contents form a run, and every object
      made for it and found in it is live. */
  method PerformAll(pool: Pool, owner: Oid, ops: seq<Op>, power: Power, ghost kids: seq<Oid>)
    returns (attempts: seq<Attempt<Oid>>, ghost run: Run)
    requires VecRepr(pool.heap, owner, kids) && forall op | op in ops :: Callable(op)
    modifies pool
    ensures Ran(power, owner, ops, run) && |run.logs| == |ops| && run.attempts == attempts
    ensures run.contents[0] == kids && run.heaps[0] == old(pool.heap) && run.heaps[|ops|] == pool.heap
    ensures VecRepr(pool.heap, owner, run.contents[|ops|]) && AllStand(pool.heap, owner, ops, run)
    ensures pool.refusals == old(pool.refusals) + Refusals(run.logs)
  {
    hide AllStand, Undisturbed, Follows, VecOk, Lived, Refusals, Standing;
    attempts := [];
    run := Run([], [kids], [pool.heap], []);
    assert AllStand(pool.heap, owner, ops, run) && Refusals(run.logs) == 0 by {
      NothingStands(pool.heap, owner, ops, run);
    }
    for i := 0 to |ops|
      invariant Ran(power, owner, ops, run) && |run.logs| == i && run.attempts == attempts
      invariant run.contents[0] == kids && run.heaps[0] == old(pool.heap) && run.heaps[i] == pool.heap
      invariant AllStand(pool.heap, owner, ops, run)
      invariant pool.refusals == old(pool.refusals) + Refusals(run.logs)
    {
      assert ops[i] in ops;
      var attempt;
      ghost var after, log;
      ghost var h0 := pool.heap;
      attempt, after, log := PerformOrCut(pool, owner, ops[i], i, power, run.contents[i]);
      RanLonger(power, owner, ops, run, attempt, after, pool.heap, log);
      AllStandLonger(power, h0, pool.heap, owner, ops, run, attempt, after, log);
      attempts, run := attempts + [attempt], Longer(run, attempt, after, pool.heap, log);
    }
  }

  lemma {:induction false} NothingStands(h: Heap, owner: Oid, ops: seq<Op>, run: Run)
    requires run.attempts == [] && run.logs == [] && |run.contents| == 1 && owner in h && HasPtr(h[owner])
    ensures AllStand(h, owner, ops, run) && Refusals(run.logs) == 0
  {
  }

  // ----- growth -----

  ghost function SlotsBefore(owner: Oid, run: Run, i: nat): nat
    requires i < |run.heaps| && i < |run.contents| && VecRepr(run.heaps[i], owner, run.contents[i])
  {
    PersistentVector.AllocatedSize(run.heaps[i], owner)
  }

  /** So for any run of completed pushes, of either kind, onto any vector. */
  lemma {:induction false} RunGrows(power: Power, owner: Oid, ops: seq<Op>, run: Run)
    returns (copies: seq<nat>)
    requires Ran(power, owner, ops, run) && run.logs != []
    requires forall i | 0 <= i < |run.logs| :: run.attempts[i].Completed?
    ensures |copies| == |run.logs| && forall i | 0 <= i < |copies| :: copies[i] == run.logs[i].copied
    ensures var n := |run.logs|;
            var c := if SlotsBefore(owner, run, 0) == 0 then 1 else SlotsBefore(owner, run, 0);
            && |run.contents[n]| == |run.contents[0]| + n
            && LeastDoubling(c, |run.contents[n]|, SlotsBefore(owner, run, n))
            && Sum(copies) + c == SlotsBefore(owner, run, n) && Sum(copies) < 2 * |run.contents[n]|
  {
    hide VecOk, LeastDoubling, Lived, GrowsBy;
    var n := |run.logs|;
    copies := seq(n, i requires 0 <= i < n => run.logs[i].copied);
    var lens: seq<nat> := seq(n + 1, i requires 0 <= i <= n => |run.contents[i]|);
    var caps: seq<nat> := seq(n + 1, i requires 0 <= i <= n => SlotsBefore(owner, run, i));
    forall i | 0 <= i < n ensures GrowsBy(lens[i], caps[i], lens[i + 1], caps[i + 1], copies[i]) {
      CompletedCall(power, owner, ops, run, i);
    }
    LengthFits(run.heaps[0], owner, run.contents[0]);
    Runs.GrowthIsAmortised(lens, caps, copies);
  }

  /** A completed push in a run: one more element, in the slots that the push promises. */
  lemma {:induction false} CompletedCall(power: Power, owner: Oid, ops: seq<Op>, run: Run, i: nat)
    requires Ran(power, owner, ops, run) && i < |run.logs| && run.attempts[i].Completed?
    ensures !ops[i].Grow? && |run.contents[i + 1]| == |run.contents[i]| + 1
    ensures Sized(ops[i], |run.contents[i]|, SlotsBefore(owner, run, i), SlotsBefore(owner, run, i + 1),
                  run.logs[i].copied)
  {
    hide VecOk, Sized, Executed, IsCut;
    var h, h', log := run.heaps[i], run.heaps[i + 1], run.logs[i];
    assert Follows(run.contents[i], run.attempts[i], run.contents[i + 1]);
    assert Lived(power, i, owner, ops[i], run.attempts[i], h, h', run.contents[i], log);
    var supply :| LivedUnder(supply, power, i, owner, ops[i], run.attempts[i], h, h', run.contents[i], log);
    assert supply == Held && h' == log.end;
  }

  lemma {:induction false} LengthFits(h: Heap, owner: Oid, kids: seq<Oid>)
    requires VecRepr(h, owner, kids)
    ensures |kids| <= PersistentVector.AllocatedSize(h, owner)
  {
  }
}
