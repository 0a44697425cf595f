/** A cache in front of persistent memory, and why `Cell.may` describes it exactly: the values
    that a power cut can leave on the medium, over every schedule of unsolicited write-backs,
    are the values of the `may` sets, chosen independently for every word. */
module WriteBack {
  import opened Pmem

  datatype Event<L, V> = Store(at: L, value: V) | Persist(at: L)

  datatype Device<!L, V> = Device(cached: imap<L, V>, medium: imap<L, V>) {
    ghost predicate Valid() { cached.Keys == medium.Keys }
  }

  /** The processor writes some lines back, at a moment of its own choosing. */
  ghost function WriteBackLines<L, V>(d: Device<L, V>, lines: iset<L>): Device<L, V> {
    d.(medium := imap l | l in d.medium :: if l in lines && l in d.cached then d.cached[l] else d.medium[l])
  }

  ghost function Apply<L, V>(d: Device<L, V>, e: Event<L, V>): Device<L, V>
    requires e.at in d.cached
  {
    match e
    case Store(at, v) => d.(cached := d.cached[at := v])
    case Persist(at) => d.(medium := d.medium[at := d.cached[at]])
  }

  ghost predicate Addresses<L, V>(d: Device<L, V>, es: seq<Event<L, V>>) {
    forall e | e in es :: e.at in d.cached
  }

  /** The device after the events, with the lines schedule[i] written back before event i and
      the last set after the last event. */
  ghost function Run<L, V>(d: Device<L, V>, es: seq<Event<L, V>>, schedule: seq<iset<L>>): (r: Device<L, V>)
    requires d.Valid() && Addresses(d, es) && |schedule| == |es| + 1
    ensures r.Valid() && r.cached.Keys == d.cached.Keys
    decreases |es|
  {
    if es == [] then WriteBackLines(d, schedule[0])
    else
      var n := |es| - 1;
      WriteBackLines(Apply(Run(d, es[..n], schedule[..n + 1]), es[n]), schedule[n + 1])
  }

  /** One event on words with `may` sets. */
  ghost function CellsStep<L, V>(before: imap<L, Cell<V>>, e: Event<L, V>): imap<L, Cell<V>>
    requires e.at in before
  {
    match e
    case Store(at, v) => before[at := Stored(before[at], v)]
    case Persist(at) => before[at := Persisted(before[at])]
  }

  /** The same events on words with `may` sets, with no schedule at all. */
  ghost function Cells<L, V>(d: Device<L, V>, es: seq<Event<L, V>>): (r: imap<L, Cell<V>>)
    requires d.Valid() && Addresses(d, es)
    ensures r.Keys == d.cached.Keys
    ensures forall l | l in r :: r[l].now in r[l].may
    decreases |es|
  {
    if es == [] then imap l | l in d.cached :: Cell(d.cached[l], {d.medium[l], d.cached[l]})
    else
      var n := |es| - 1;
      CellsStep(Cells(d, es[..n]), es[n])
  }

  ghost predicate Allowed<L, V>(m: imap<L, V>, cells: imap<L, Cell<V>>) {
    m.Keys == cells.Keys && forall l | l in m :: m[l] in cells[l].may
  }

  lemma {:induction false} ScheduleStaysAllowed<L, V>(d: Device<L, V>, es: seq<Event<L, V>>, schedule: seq<iset<L>>)
    requires d.Valid() && Addresses(d, es) && |schedule| == |es| + 1
    ensures Allowed(Run(d, es, schedule).medium, Cells(d, es))
    ensures forall l | l in d.cached :: Run(d, es, schedule).cached[l] == Cells(d, es)[l].now
    decreases |es|
  {
    if es != [] {
      var n := |es| - 1;
      ScheduleStaysAllowed(d, es[..n], schedule[..n + 1]);
    }
  }

  /** What the medium must have held before the event e, for it to hold m afterwards. */
  ghost function Earlier<L, V>(before: imap<L, Cell<V>>, e: Event<L, V>, m: imap<L, V>): imap<L, V>
    requires e.at in before && e.at in m
  {
    if m[e.at] in before[e.at].may then m else m[e.at := before[e.at].now]
  }

  lemma {:induction false} StepBack<L, V>(r: Device<L, V>, before: imap<L, Cell<V>>, e: Event<L, V>, m: imap<L, V>)
    requires r.Valid() && e.at in r.cached && before.Keys == r.cached.Keys == m.Keys
    requires forall l | l in r.cached :: r.cached[l] == before[l].now
    requires e.Store? ==> m[e.at] in Stored(before[e.at], e.value).may
    requires e.Persist? ==> m[e.at] in Persisted(before[e.at]).may
    requires r.medium == Earlier(before, e, m)
    ensures WriteBackLines(Apply(r, e), if r.medium == m then iset{} else iset{e.at}).medium == m
  {
    var done := WriteBackLines(Apply(r, e), if r.medium == m then iset{} else iset{e.at});
    assert done.medium.Keys == m.Keys;
    forall l | l in m ensures done.medium[l] == m[l] {
      if l == e.at && r.medium != m { assert e.Store?; }
    }
  }

  lemma {:induction false} AllowedHasSchedule<L, V>(d: Device<L, V>, es: seq<Event<L, V>>, m: imap<L, V>)
    returns (schedule: seq<iset<L>>)
    requires d.Valid() && Addresses(d, es) && Allowed(m, Cells(d, es))
    ensures |schedule| == |es| + 1 && Run(d, es, schedule).medium == m
    decreases |es|
  {
    if es == [] {
      schedule := [iset l | l in m && m[l] == d.cached[l]];
      assert Run(d, es, schedule).medium == m;
    } else {
      var n := |es| - 1;
      var before := Cells(d, es[..n]);
      var earlier := Earlier(before, es[n], m);
      var prefix := AllowedHasSchedule(d, es[..n], earlier);
      ScheduleStaysAllowed(d, es[..n], prefix);
      StepBack(Run(d, es[..n], prefix), before, es[n], m);
      schedule := prefix + [if earlier == m then iset{} else iset{es[n].at}];
      assert schedule[..n + 1] == prefix;
    }
  }

  /** Some schedule of write-backs leaves m on the medium. */
  ghost predicate SomeScheduleLeaves<L(!new), V>(d: Device<L, V>, es: seq<Event<L, V>>, m: imap<L, V>)
    requires d.Valid() && Addresses(d, es)
  {
    exists schedule :: |schedule| == |es| + 1 && Run(d, es, schedule).medium == m
  }

  /** The `may` sets are exact: nothing outside them can be found after a power cut, and every
      choice from them can. */
  lemma {:induction false} MaySetsAreExact<L(!new), V>(d: Device<L, V>, es: seq<Event<L, V>>, m: imap<L, V>)
    requires d.Valid() && Addresses(d, es)
    ensures Allowed(m, Cells(d, es)) <==> SomeScheduleLeaves(d, es, m)
  {
    if Allowed(m, Cells(d, es)) {
      var schedule := AllowedHasSchedule(d, es, m);
    }
    if schedule :| |schedule| == |es| + 1 && Run(d, es, schedule).medium == m {
      ScheduleStaysAllowed(d, es, schedule);
    }
  }
}
