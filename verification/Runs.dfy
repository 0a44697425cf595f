/** Whole runs of a growing vector, of pointers or of plain data. */
module Runs {
  // ----- runs -----

  /** One attempt to append x: it returns, it throws because an allocation failed, or the power
      is cut at one of its steps, before it has returned. Or an attempt to make space for more,
      however it ends. Or none: the power is cut while no call is under way, all earlier ones
      having returned, and this one is never made. */
  datatype Attempt<T> = Completed(x: T) | Failed(x: T) | PowerCut(x: T) | Reserve | NotMade

  /** What a push of either vector type and its power-cut lemma promise about the contents before and after. */
  ghost predicate Follows<T>(before: seq<T>, a: Attempt<T>, after: seq<T>) {
    match a
    case Completed(x) => after == before + [x]
    case Failed(_) => after == before
    case PowerCut(x) => after == before || after == before + [x]
    case Reserve => after == before
    case NotMade => after == before
  }

  /** contents[i] is what the vector holds before attempt i. */
  ghost predicate IsRun<T>(contents: seq<seq<T>>, attempts: seq<Attempt<T>>) {
    |contents| == |attempts| + 1
    && forall i | 0 <= i < |attempts| :: Follows(contents[i], attempts[i], contents[i + 1])
  }

  /** The completed appends in order, with the interrupted ones that `kept` selects. */
  ghost function Survivors<T>(attempts: seq<Attempt<T>>, kept: set<nat>): seq<T> {
    if attempts == [] then []
    else
      var n := |attempts| - 1;
      Survivors(attempts[..n], kept)
      + if attempts[n].Completed? || (attempts[n].PowerCut? && n in kept) then [attempts[n].x] else []
  }

  /** Over every run, with any number of power cuts, the vector holds what it held, then every
      completed append in order, nothing that was not attempted, and of each interrupted append
      all or nothing. */
  lemma {:induction false} RunKeepsCompleted<T>(contents: seq<seq<T>>,
        attempts: seq<Attempt<T>>) returns (kept: set<nat>)
    requires IsRun(contents, attempts)
    ensures contents[|attempts|] == contents[0] + Survivors(attempts, kept)
    ensures forall k | k in kept :: k < |attempts| && attempts[k].PowerCut?
    decreases |attempts|
  {
    if attempts == [] {
      kept := {};
    } else {
      var n := |attempts| - 1;
      kept := RunKeepsCompleted(contents[..n + 1], attempts[..n]);
      assert Follows(contents[n], attempts[n], contents[n + 1]);
      if attempts[n].PowerCut? && contents[n + 1] != contents[n] {
        SurvivorsLocal(attempts[..n], kept, kept + {n});
        kept := kept + {n};
      }
    }
  }

  lemma {:induction false} SurvivorsLocal<T>(attempts: seq<Attempt<T>>, kept: set<nat>, more: set<nat>)
    requires forall k | k < |attempts| :: k in kept <==> k in more
    ensures Survivors(attempts, kept) == Survivors(attempts, more)
    decreases |attempts|
  {
    if attempts != [] {
      SurvivorsLocal(attempts[..|attempts| - 1], kept, more);
    }
  }

  // ----- growth -----

  /** c, doubled j times. */
  function Times(c: nat, j: nat): nat { if j == 0 then c else 2 * Times(c, j - 1) }

  /** cap is the least c * 2^j that is at least n. */
  ghost predicate LeastDoubling(c: nat, n: nat, cap: nat) {
    && n <= cap && (exists j: nat :: cap == Times(c, j))
    && forall j: nat :: n <= Times(c, j) ==> cap <= Times(c, j)
  }

  lemma {:induction false} TimesGrows(c: nat, j: nat, k: nat)
    requires j <= k
    ensures Times(c, j) <= Times(c, k) && (j < k ==> 2 * Times(c, j) <= Times(c, k))
    decreases k
  {
    if j < k {
      TimesGrows(c, j, k - 1);
    }
  }

  /** A block of c slots that holds n elements. */
  lemma {:induction false} LeastAtStart(c: nat, n: nat)
    requires n <= c
    ensures LeastDoubling(c, n, c)
  {
    assert Times(c, 0) == c;
    forall j: nat ensures c <= Times(c, j) {
      TimesGrows(c, 0, j);
    }
  }

  /** One more element, with a full block doubled and any other kept. */
  lemma {:induction false} LeastAfterPush(c: nat, n: nat, cap: nat)
    requires c >= 1 && LeastDoubling(c, n, cap)
    ensures LeastDoubling(c, n + 1, if n == cap then 2 * cap else cap)
  {
    var j: nat :| cap == Times(c, j);
    TimesGrows(c, 0, j);
    if n == cap {
      assert 2 * cap == Times(c, j + 1);
      forall k: nat | n + 1 <= Times(c, k) ensures 2 * cap <= Times(c, k) {
        if k <= j {
          TimesGrows(c, k, j);
        } else {
          TimesGrows(c, j, k);
        }
      }
    }
  }

  /** So the capacity is below twice the need, unless it was never exceeded. */
  lemma {:induction false} LeastIsBelowTwice(c: nat, n: nat, cap: nat)
    requires LeastDoubling(c, n, cap)
    ensures c <= cap && (cap == c || cap < 2 * n)
  {
    var j: nat :| cap == Times(c, j);
    TimesGrows(c, 0, j);
    if j > 0 && n <= Times(c, j - 1) {
      assert cap <= Times(c, j - 1);
    }
  }

  /** One push onto len elements in cap slots (0 if there is no block): a first slot, twice the
      slots, or the same; and the elements copied to get there. */
  ghost predicate GrowsBy(len: nat, cap: nat, len': nat, cap': nat, copied: nat) {
    && len' == len + 1
    && cap' == (if cap == 0 then 1 else if len == cap then 2 * cap else cap)
    && copied == (if len == cap then cap else 0)
  }

  ghost function Sum(ns: seq<nat>): nat {
    if ns == [] then 0 else Sum(ns[..|ns| - 1]) + ns[|ns| - 1]
  }

  lemma {:induction false} GrowsFirst(n: nat, cap: nat, cap': nat, copied: nat)
    requires n <= cap && GrowsBy(n, cap, n + 1, cap', copied)
    ensures var c := if cap == 0 then 1 else cap;
            LeastDoubling(c, n + 1, cap') && copied == cap' - c && copied < 2 * (n + 1)
  {
    if cap == 0 {
      LeastAtStart(1, 1);
    } else {
      LeastAtStart(cap, n);
      GrowsMore(cap, n, cap, 0, cap', copied);
    }
  }

  lemma {:induction false} GrowsMore(c: nat, n: nat, cap: nat, total: nat, cap': nat, copied: nat)
    requires c >= 1 && LeastDoubling(c, n, cap) && total == cap - c && GrowsBy(n, cap, n + 1, cap', copied)
    ensures LeastDoubling(c, n + 1, cap') && total + copied == cap' - c && total + copied < 2 * (n + 1)
  {
    LeastIsBelowTwice(c, n, cap);
    LeastAfterPush(c, n, cap);
    LeastIsBelowTwice(c, n + 1, cap');
  }

  /** Over any sequence of pushes onto any vector: from c slots (one, if there was no block) the
      capacity becomes the least c * 2^j that fits; the elements copied are as many as the slots
      gained, and fewer than twice the elements. */
  lemma {:induction false} GrowthIsAmortised(lens: seq<nat>, caps: seq<nat>, copies: seq<nat>)
    requires |lens| == |caps| == |copies| + 1 && copies != [] && lens[0] <= caps[0]
    requires forall i | 0 <= i < |copies| :: GrowsBy(lens[i], caps[i], lens[i + 1], caps[i + 1], copies[i])
    ensures var n, c := |copies|, if caps[0] == 0 then 1 else caps[0];
            && lens[n] == lens[0] + n && LeastDoubling(c, lens[n], caps[n])
            && Sum(copies) + c == caps[n] && Sum(copies) < 2 * lens[n]
    decreases |copies|
  {
    hide LeastDoubling;
    var n := |copies|;
    assert GrowsBy(lens[n - 1], caps[n - 1], lens[n], caps[n], copies[n - 1]);
    if n == 1 {
      assert Sum(copies[..0]) == 0;
      GrowsFirst(lens[0], caps[0], caps[1], copies[0]);
    } else {
      GrowthIsAmortised(lens[..n], caps[..n], copies[..n - 1]);
      GrowsMore(if caps[0] == 0 then 1 else caps[0], lens[n - 1], caps[n - 1], Sum(copies[..n - 1]), caps[n],
                copies[n - 1]);
    }
  }
}
