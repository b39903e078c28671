/** client/collectors/print_jobs.py, `_counter_jobs` and the baseline handling around it: pages printed, from
    spooler counters that restart, disappear and come back. */
module PrintCounters {
  import opened Wrappers
  import opened Sequences

  const MAX_BASELINES := 500
  const MAX_NAME_LEN := 256

  /** A spooler queue as listed; `pages` is None when it is not a number. */
  datatype Queue = Queue(name: string, pages: Option<int>)

  /** A dict entry, and a job row: the pages of a queue. */
  datatype Entry = Entry(name: string, pages: nat)

  /** A dict in insertion order, without repeated names. */
  type Base = seq<Entry>

  // ---- ordered dicts ----

  function Names(b: Base): set<string> {
    set e | e in b :: e.name
  }

  predicate Distinct(b: Base) {
    b == [] || (b[0].name !in Names(b[1..]) && Distinct(b[1..]))
  }

  function Get(b: Base, name: string): Option<nat> {
    if b == [] then None
    else if b[0].name == name then Some(b[0].pages)
    else Get(b[1..], name)
  }

  /** `b[name] = pages`: an existing name keeps its place. */
  function Assign(b: Base, name: string, pages: nat): Base {
    if b == [] then [Entry(name, pages)]
    else if b[0].name == name then [Entry(name, pages)] + b[1..]
    else [b[0]] + Assign(b[1..], name, pages)
  }

  lemma {:induction false} GetIsMember(b: Base, name: string)
    ensures name in Names(b) <==> Get(b, name).Some?
  {
    if b == [] {
    } else {
      GetIsMember(b[1..], name);
      HeadPlusTail(b);
      assert forall e :: e in b <==> e == b[0] || e in b[1..];
    }
  }

  lemma {:induction false} GetAssign(b: Base, name: string, pages: nat, wanted: string)
    ensures Get(Assign(b, name, pages), wanted) == if wanted == name then Some(pages) else Get(b, wanted)
  {
    if b == [] {
      assert [Entry(name, pages)][1..] == [];
    } else if b[0].name == name {
      ConsTail(Entry(name, pages), b[1..]);
    } else {
      GetAssign(b[1..], name, pages, wanted);
      ConsTail(b[0], Assign(b[1..], name, pages));
    }
  }

  lemma NamesCons(x: Entry, b: Base)
    ensures Names([x] + b) == {x.name} + Names(b)
  {
    assert forall e :: e in [x] + b <==> e == x || e in b;
  }

  lemma NamesPlus(a: Base, b: Base)
    ensures Names(a + b) == Names(a) + Names(b)
  {
    assert forall e :: e in a + b <==> e in a || e in b;
  }

  lemma {:induction false} AssignDistinct(b: Base, name: string, pages: nat)
    requires Distinct(b)
    ensures Distinct(Assign(b, name, pages)) && Names(Assign(b, name, pages)) == Names(b) + {name}
  {
    if b == [] {
      assert [Entry(name, pages)] == [Entry(name, pages)] + [];
      NamesCons(Entry(name, pages), []);
    } else {
      HeadPlusTail(b);
      NamesCons(b[0], b[1..]);
      if b[0].name == name {
        NamesCons(Entry(name, pages), b[1..]);
        ConsTail(Entry(name, pages), b[1..]);
      } else {
        AssignDistinct(b[1..], name, pages);
        NamesCons(b[0], Assign(b[1..], name, pages));
        ConsTail(b[0], Assign(b[1..], name, pages));
      }
    }
  }

  lemma {:induction false} PlusDistinct(a: Base, b: Base)
    requires Distinct(a) && Distinct(b) && Names(a) !! Names(b)
    ensures Distinct(a + b)
  {
    if a == [] {
      PlusEmpty(b);
    } else {
      HeadPlusTail(a);
      NamesCons(a[0], a[1..]);
      TailOfPlus(a, b);
      NamesPlus(a[1..], b);
      PlusDistinct(a[1..], b);
    }
  }

  lemma {:induction false} SuffixDistinct(b: Base, from: nat, name: string)
    requires from <= |b| && Distinct(b)
    ensures Distinct(b[from..]) && Names(b[from..]) <= Names(b)
    ensures Get(b[from..], name) == None || Get(b[from..], name) == Get(b, name)
  {
    if from == 0 {
      assert b[0..] == b;
    } else {
      HeadPlusTail(b);
      NamesCons(b[0], b[1..]);
      assert b[1..][from - 1..] == b[from..];
      SuffixDistinct(b[1..], from - 1, name);
      GetIsMember(b[1..], name);
    }
  }

  lemma {:induction false} GetPlus(a: Base, b: Base, name: string)
    ensures Get(a + b, name) == if Get(a, name).Some? then Get(a, name) else Get(b, name)
  {
    if a == [] {
      PlusEmpty(b);
    } else {
      TailOfPlus(a, b);
      GetPlus(a[1..], b, name);
    }
  }

  // ---- one sweep ----

  function Clip(name: string): string {
    if |name| <= MAX_NAME_LEN then name else name[..MAX_NAME_LEN]
  }

  /** A reading that counts, under the clipped name. */
  function ReadingOf(q: Queue, isVirtual: string -> bool): seq<Entry> {
    var name := Clip(q.name);
    if name == "" || name == "_Total" || isVirtual(name) || q.pages == None || q.pages.value < 0 then []
    else [Entry(name, q.pages.value)]
  }

  function Readings(queues: seq<Queue>, isVirtual: string -> bool): seq<Entry> {
    if queues == [] then [] else ReadingOf(queues[0], isVirtual) + Readings(queues[1..], isVirtual)
  }

  /** A counter that went back means a spooler restart: all of it is new. */
  function Delta(base: nat, pages: nat): nat {
    if pages < base then pages else pages - base
  }

  function JobsOf(r: Entry, baselines: Base): seq<Entry> {
    match Get(baselines, r.name)
    case None => []
    case Some(base) => if Delta(base, r.pages) > 0 then [Entry(r.name, Delta(base, r.pages))] else []
  }

  function Jobs(readings: seq<Entry>, baselines: Base): seq<Entry>
    decreases |readings|
  {
    if readings == [] then []
    else Jobs(readings[..|readings| - 1], baselines) + JobsOf(readings[|readings| - 1], baselines)
  }

  function NewBase(readings: seq<Entry>): Base
    decreases |readings|
  {
    if readings == [] then []
    else
      var last := readings[|readings| - 1];
      Assign(NewBase(readings[..|readings| - 1]), last.name, last.pages)
  }

  function Absent(baselines: Base, seen: set<string>): Base {
    if baselines == [] then []
    else if baselines[0].name in seen then Absent(baselines[1..], seen)
    else [baselines[0]] + Absent(baselines[1..], seen)
  }

  function LastN(b: Base, n: nat): Base {
    if |b| <= n then b else b[|b| - n..]
  }

  function Room(seen: nat): nat {
    if seen < MAX_BASELINES then MAX_BASELINES - seen else 0
  }

  /** The next baselines: room for unseen queues, the latest of them, then every queue of this sweep. */
  function Kept(baselines: Base, current: Base): Base {
    LastN(Absent(baselines, Names(current)), Room(|current|)) + current
  }

  lemma NoReadings(queues: seq<Queue>, baselines: Base, isVirtual: string -> bool)
    ensures Jobs([], baselines) == [] && NewBase([]) == [] && Readings(queues[|queues|..], isVirtual) == []
    ensures [] + Readings(queues[0..], isVirtual) == Readings(queues, isVirtual)
  {
    assert queues[0..] == queues;
  }

  lemma NextReading(queues: seq<Queue>, i: nat, done: seq<Entry>, isVirtual: string -> bool)
    requires i < |queues|
    ensures done + Readings(queues[i..], isVirtual)
            == (done + ReadingOf(queues[i], isVirtual)) + Readings(queues[i + 1..], isVirtual)
  {
    assert queues[i..][1..] == queues[i + 1..];
    PlusIsAssociative(done, ReadingOf(queues[i], isVirtual), Readings(queues[i + 1..], isVirtual));
  }

  lemma OneReading(done: seq<Entry>, r: Entry, baselines: Base)
    ensures Jobs(done + [r], baselines) == Jobs(done, baselines) + JobsOf(r, baselines)
    ensures NewBase(done + [r]) == Assign(NewBase(done), r.name, r.pages)
  {
    assert (done + [r])[..|done|] == done;
  }

  method CounterJobs(queues: seq<Queue>, baselines: Base, isVirtual: string -> bool)
    returns (jobs: seq<Entry>, kept: Base)
    ensures jobs == Jobs(Readings(queues, isVirtual), baselines)
    ensures kept == Kept(baselines, NewBase(Readings(queues, isVirtual)))
  {
    hide Jobs;
    hide NewBase;
    hide Readings;
    jobs := [];
    var newBase: Base := [];
    ghost var done: seq<Entry> := [];
    NoReadings(queues, baselines, isVirtual);
    for i := 0 to |queues|
      invariant done + Readings(queues[i..], isVirtual) == Readings(queues, isVirtual)
      invariant jobs == Jobs(done, baselines) && newBase == NewBase(done)
    {
      NextReading(queues, i, done, isVirtual);
      ghost var before := done;
      done := done + ReadingOf(queues[i], isVirtual);
      var name := Clip(queues[i].name);
      if name == "" || name == "_Total" || isVirtual(name) {
        PlusEmpty(before);
        continue;
      }
      if queues[i].pages == None || queues[i].pages.value < 0 {
        PlusEmpty(before);
        continue;
      }
      var pages := queues[i].pages.value;
      OneReading(before, Entry(name, pages), baselines);
      newBase := Assign(newBase, name, pages);
      var base := Get(baselines, name);
      if base.Some? {
        var delta := if pages < base.value then pages else pages - base.value;
        if delta > 0 {
          jobs := jobs + [Entry(name, delta)];
        } else {
          PlusEmpty(jobs);
        }
      } else {
        PlusEmpty(jobs);
      }
    }
    NoReadings(queues, baselines, isVirtual);
    PlusEmpty(done);
    var absent := Absent(baselines, Names(newBase));
    var room := Room(|newBase|);
    kept := LastN(absent, room) + newBase;
  }

  /** What became of a write of the state file: done, not begun, or broken off after the file was emptied. */
  datatype Write = Written | Untouched | Torn

  /** What the next sweep finds. */
  function Stored(before: Base, after: Base, write: Write): Base {
    match write
    case Written => after
    case Untouched => before
    case Torn => []
  }

  class Collector {
    var baselines: Base

    constructor ()
      ensures baselines == []
    {
      baselines := [];
    }

    /** `reseed` on entering counter mode, or when the state file cannot be read; `write` is the fortune of its
        write. */
    method CollectViaCounter(queues: seq<Queue>, isVirtual: string -> bool, reseed: bool, write: Write)
      returns (jobs: seq<Entry>)
      modifies this
      ensures var r, base := Readings(queues, isVirtual), if reseed then [] else old(baselines);
        && jobs == Jobs(r, base)
        && baselines == Stored(old(baselines), Kept(base, NewBase(r)), write)
    {
      var kept: Base;
      jobs, kept := CounterJobs(queues, if reseed then [] else baselines, isVirtual);
      match write {
        case Written => baselines := kept;
        case Untouched =>
        case Torn => baselines := [];
      }
    }
  }

  // ---- retention ----

  lemma {:induction false} NewBaseGet(readings: seq<Entry>, name: string)
    ensures name in Names(readings) <==> Get(NewBase(readings), name).Some?
    decreases |readings|
  {
    if readings == [] {
    } else {
      var n := |readings| - 1;
      NewBaseGet(readings[..n], name);
      GetAssign(NewBase(readings[..n]), readings[n].name, readings[n].pages, name);
      assert readings == readings[..n] + [readings[n]];
      assert forall e :: e in readings <==> e in readings[..n] || e == readings[n];
    }
  }

  lemma {:induction false} AbsentGet(baselines: Base, seen: set<string>, name: string)
    ensures Get(Absent(baselines, seen), name) == if name in seen then None else Get(baselines, name)
  {
    if baselines == [] {
    } else {
      AbsentGet(baselines[1..], seen, name);
      ConsTail(baselines[0], Absent(baselines[1..], seen));
    }
  }

  /** Every queue of this sweep is in the next baselines with its reading, however many there are. */
  lemma SeenAreRetained(baselines: Base, readings: seq<Entry>, name: string)
    requires name in Names(readings)
    ensures Get(Kept(baselines, NewBase(readings)), name) == Get(NewBase(readings), name)
    ensures Get(NewBase(readings), name).Some?
  {
    var b := NewBase(readings);
    var rest := LastN(Absent(baselines, Names(b)), Room(|b|));
    NewBaseGet(readings, name);
    GetIsMember(b, name);
    AbsentNames(baselines, Names(b));
    assert name !in Names(rest);
    GetIsMember(rest, name);
    GetPlus(rest, b, name);
  }

  lemma {:induction false} AbsentNames(baselines: Base, seen: set<string>)
    ensures forall e :: e in Absent(baselines, seen) <==> e in baselines && e.name !in seen
  {
    if baselines == [] {
    } else {
      AbsentNames(baselines[1..], seen);
      HeadPlusTail(baselines);
    }
  }

  /** The map never holds more than 500 names, unless the sweep itself saw more. */
  lemma SoftCap(baselines: Base, b: Base)
    ensures |Kept(baselines, b)| <= if |b| > MAX_BASELINES then |b| else MAX_BASELINES
  {}

  // ---- order of last appearance ----

  type Stamps = map<string, nat>

  /** Positions follow the sweep of last appearance. */
  ghost predicate InOrder(b: Base, seen: Stamps) {
    && (forall e :: e in b ==> e.name in seen)
    && (forall i, k ::
          0 <= i < k < |b| && b[i].name in seen && b[k].name in seen ==> seen[b[i].name] <= seen[b[k].name])
  }

  function Stamped(seen: Stamps, names: set<string>, sweep: nat): Stamps {
    map n | n in seen.Keys + names :: if n in names then sweep else seen[n]
  }

  lemma {:induction false} AbsentInOrder(b: Base, seen: Stamps, names: set<string>)
    requires InOrder(b, seen)
    ensures InOrder(Absent(b, names), seen)
  {
    hide InOrder;
    if b == [] {
    } else {
      InOrderTail(b, seen);
      AbsentInOrder(b[1..], seen, names);
      AbsentNames(b[1..], names);
      InOrderCons(b, Absent(b[1..], names), seen);
    }
  }

  lemma InOrderTail(b: Base, seen: Stamps)
    requires b != [] && InOrder(b, seen)
    ensures InOrder(b[1..], seen)
  {
    Slices(b, 1);
  }

  lemma InOrderCons(b: Base, rest: Base, seen: Stamps)
    requires b != [] && InOrder(b, seen) && InOrder(rest, seen) && forall e :: e in rest ==> e in b[1..]
    ensures InOrder([b[0]] + rest, seen)
  {
    assert b[0] in b;
    forall k | 0 <= k < |rest|
      ensures rest[k].name in seen && seen[b[0].name] <= seen[rest[k].name]
    {
      assert rest[k] in rest;
      var j := IndexOf(b[1..], rest[k]);
      assert b[j + 1] == rest[k];
    }
  }

  /** Map order stays the order of last appearance, sweep after sweep. */
  lemma OrderIsKept(baselines: Base, seen: Stamps, b: Base, sweep: nat)
    requires InOrder(baselines, seen) && forall n :: n in seen ==> seen[n] < sweep
    ensures InOrder(Kept(baselines, b), Stamped(seen, Names(b), sweep))
    ensures forall n :: n in Stamped(seen, Names(b), sweep) ==> Stamped(seen, Names(b), sweep)[n] <= sweep
  {
    var rest := LastN(Absent(baselines, Names(b)), Room(|b|));
    AbsentInOrder(baselines, seen, Names(b));
    AbsentNames(baselines, Names(b));
    var kept, seen' := Kept(baselines, b), Stamped(seen, Names(b), sweep);
    forall e | e in rest
      ensures e.name in seen && e.name !in Names(b) && seen'[e.name] == seen[e.name]
    {
    }
    forall e | e in b
      ensures e.name in seen' && seen'[e.name] == sweep
    {
      assert e.name in Names(b);
    }
    forall i, k | 0 <= i < k < |kept|
      ensures seen'[kept[i].name] <= seen'[kept[k].name]
    {
      if k < |rest| {
        assert kept[i] == rest[i] && kept[k] == rest[k] && rest[i] in rest && rest[k] in rest;
      } else {
        assert kept[k] == b[k - |rest|] && kept[k] in b && kept[i] in kept;
      }
    }
  }

  /** A name dropped for want of room was last seen no later than any name that stays. */
  lemma EvictedAreOldest(baselines: Base, seen: Stamps, b: Base, gone: Entry, stays: Entry)
    requires InOrder(baselines, seen)
    requires gone in baselines && gone.name !in Names(Kept(baselines, b))
    requires stays in baselines && stays.name in Names(Kept(baselines, b)) && stays.name !in Names(b)
    ensures seen[gone.name] <= seen[stays.name]
  {
    var absent := Absent(baselines, Names(b));
    var rest := LastN(absent, Room(|b|));
    NamesPlus(rest, b);
    AbsentNames(baselines, Names(b));
    AbsentInOrder(baselines, seen, Names(b));
    Straddle(absent, |absent| - |rest|, seen, gone, stays.name);
  }

  lemma Straddle(b: Base, cut: nat, seen: Stamps, gone: Entry, stays: string)
    requires cut <= |b| && InOrder(b, seen)
    requires gone in b && gone.name !in Names(b[cut..]) && stays in Names(b[cut..])
    ensures seen[gone.name] <= seen[stays]
  {
    hide Names;
    var i := IndexOf(b, gone);
    var k := IndexOfName(b[cut..], stays);
    if i >= cut {
      SuffixHas(b, cut, i);
    } else {
      assert b[cut + k] in b;
    }
  }

  lemma IndexOf(b: Base, e: Entry) returns (i: nat)
    requires e in b
    ensures i < |b| && b[i] == e
  {
    i :| i < |b| && b[i] == e;
  }

  lemma IndexOfName(b: Base, name: string) returns (i: nat)
    requires name in Names(b)
    ensures i < |b| && b[i].name == name
  {
    var e :| e in b && e.name == name;
    i := IndexOf(b, e);
  }

  lemma SuffixHas(b: Base, cut: nat, i: nat)
    requires cut <= i < |b|
    ensures b[i].name in Names(b[cut..])
  {
    assert b[cut..][i - cut] == b[i];
  }

  // ---- conservation ----

  function PagesOf(jobs: seq<Entry>, name: string): nat
    decreases |jobs|
  {
    if jobs == [] then 0
    else
      PagesOf(jobs[..|jobs| - 1], name)
      + (if jobs[|jobs| - 1].name == name then jobs[|jobs| - 1].pages else 0)
  }

  lemma {:induction false} PagesOfPlus(a: seq<Entry>, b: seq<Entry>, name: string)
    ensures PagesOf(a + b, name) == PagesOf(a, name) + PagesOf(b, name)
    decreases |b|
  {
    if b == [] {
      PlusEmpty(a);
    } else {
      var n := |b| - 1;
      PagesOfPlus(a, b[..n], name);
      assert (a + b)[..|a| + n] == a + b[..n];
    }
  }

  function Mentions(readings: seq<Entry>, name: string): nat
    decreases |readings|
  {
    if readings == [] then 0
    else Mentions(readings[..|readings| - 1], name) + (if readings[|readings| - 1].name == name then 1 else 0)
  }

  /** The sweep reads this queue at most once, and truly. */
  ghost predicate Honest(readings: seq<Entry>, name: string, counter: nat) {
    && Mentions(readings, name) <= 1
    && forall r :: r in readings && r.name == name ==> r.pages == counter
  }

  lemma {:induction false} SweepOfQueue(readings: seq<Entry>, baselines: Base, name: string, counter: nat)
    requires Honest(readings, name, counter)
    ensures Mentions(readings, name) == 1 <==> name in Names(readings)
    ensures PagesOf(Jobs(readings, baselines), name) ==
      if name in Names(readings) && Get(baselines, name).Some? then Delta(Get(baselines, name).value, counter) else 0
    ensures name in Names(readings) ==> Get(NewBase(readings), name) == Some(counter)
    decreases |readings|
  {
    if readings == [] {
    } else {
      var n := |readings| - 1;
      var last := readings[n];
      assert readings == readings[..n] + [last] && last in readings;
      assert forall r :: r in readings <==> r in readings[..n] || r == last;
      SweepOfQueue(readings[..n], baselines, name, counter);
      PagesOfPlus(Jobs(readings[..n], baselines), JobsOf(last, baselines), name);
      OneJob(last, baselines, name);
      GetAssign(NewBase(readings[..n]), last.name, last.pages, name);
    }
  }

  lemma OneJob(r: Entry, baselines: Base, name: string)
    ensures PagesOf(JobsOf(r, baselines), name) ==
      if r.name == name && Get(baselines, name).Some? then Delta(Get(baselines, name).value, r.pages) else 0
  {
    var jobs := JobsOf(r, baselines);
    if jobs != [] {
      assert jobs[..0] == [];
    }
  }

  /** One queue and the agent's file: its spooler counter, the pages really printed since the first sweep that recorded
      it, the pages emitted for it, and of these the ones emitted by sweeps that left the old state file: they are
      still owed. `whole` until a restart, a lost baseline or a reseed. */
  datatype World = World(counter: nat, baselines: Base, seeded: bool, printed: nat, emitted: nat, twice: nat,
                         whole: bool)

  datatype Step =
    | Print(pages: nat)
    | Restart
    | Sweep(readings: seq<Entry>, reseed: bool, write: Write)

  ghost predicate Enabled(w: World, name: string, a: Step) {
    a.Sweep? ==> Honest(a.readings, name, w.counter)
  }

  function Apply(w: World, name: string, a: Step): World {
    match a
    case Print(pages) => w.(counter := w.counter + pages, printed := if w.seeded then w.printed + pages else 0)
    case Restart => w.(counter := 0, whole := w.whole && !w.seeded)
    case Sweep(readings, reseed, write) =>
      var base := if reseed then [] else w.baselines;
      var next := Stored(w.baselines, Kept(base, NewBase(readings)), write);
      var pages := PagesOf(Jobs(readings, base), name);
      World(w.counter, next, w.seeded || (write.Written? && name in Names(readings)), w.printed,
            w.emitted + pages, if write.Untouched? then w.twice + pages else w.twice,
            w.whole && (w.seeded ==> Get(base, name).Some? && Get(next, name).Some?))
  }

  /** Pages that the next sweep of the queue would emit. */
  function Owed(w: World, name: string): nat {
    match Get(w.baselines, name)
    case None => 0
    case Some(base) => Delta(base, w.counter)
  }

  ghost predicate Inv(w: World, name: string) {
    && Distinct(w.baselines)
    && w.emitted + Owed(w, name) <= w.printed + w.twice
    && (!w.seeded ==> Get(w.baselines, name) == None && w.printed == 0 && w.whole)
    && (w.seeded && w.whole ==> Get(w.baselines, name).Some? && Get(w.baselines, name).value <= w.counter)
    && (w.whole ==> w.emitted + Owed(w, name) == w.printed + w.twice)
  }

  lemma StepKeepsInv(w: World, name: string, a: Step)
    requires Inv(w, name) && Enabled(w, name, a)
    ensures Inv(Apply(w, name, a), name)
  {
    hide Kept, Jobs, NewBase, PagesOf, Names, Honest;
    if a.Sweep? {
      var base := if a.reseed then [] else w.baselines;
      var next := Kept(base, NewBase(a.readings));
      SweepOfQueue(a.readings, base, name, w.counter);
      KeptDistinct(base, a.readings);
      if name in Names(a.readings) {
        SeenAreRetained(base, a.readings, name);
      } else {
        UnseenBaseline(base, a.readings, name);
      }
    }
  }

  /** A queue missing from a sweep keeps its baseline or loses it; the value never changes. */
  lemma UnseenBaseline(baselines: Base, readings: seq<Entry>, name: string)
    requires Distinct(baselines) && name !in Names(readings)
    ensures var next := Kept(baselines, NewBase(readings));
      Get(next, name) == None || Get(next, name) == Get(baselines, name)
  {
    hide Get;
    hide Names;
    hide Absent;
    hide Distinct;
    var b := NewBase(readings);
    var absent := Absent(baselines, Names(b));
    NewBaseGet(readings, name);
    GetIsMember(b, name);
    AbsentGet(baselines, Names(b), name);
    AbsentDistinct(baselines, Names(b));
    GetPlus(LastN(absent, Room(|b|)), b, name);
    SuffixDistinct(absent, |absent| - |LastN(absent, Room(|b|))|, name);
  }

  lemma {:induction false} AbsentDistinct(b: Base, seen: set<string>)
    requires Distinct(b)
    ensures Distinct(Absent(b, seen)) && Names(Absent(b, seen)) == Names(b) - seen
  {
    if b == [] {
    } else {
      HeadPlusTail(b);
      NamesCons(b[0], b[1..]);
      AbsentDistinct(b[1..], seen);
      NamesCons(b[0], Absent(b[1..], seen));
      ConsTail(b[0], Absent(b[1..], seen));
    }
  }

  lemma {:induction false} NewBaseDistinct(readings: seq<Entry>)
    ensures Distinct(NewBase(readings))
    decreases |readings|
  {
    if readings == [] {
    } else {
      var n := |readings| - 1;
      NewBaseDistinct(readings[..n]);
      AssignDistinct(NewBase(readings[..n]), readings[n].name, readings[n].pages);
    }
  }

  lemma KeptDistinct(baselines: Base, readings: seq<Entry>)
    requires Distinct(baselines)
    ensures Distinct(Kept(baselines, NewBase(readings)))
  {
    hide Distinct;
    hide Names;
    hide Absent;
    var b := NewBase(readings);
    var absent := Absent(baselines, Names(b));
    var rest := LastN(absent, Room(|b|));
    NewBaseDistinct(readings);
    AbsentDistinct(baselines, Names(b));
    SuffixDistinct(absent, |absent| - |rest|, "");
    PlusDistinct(rest, b);
  }

  function Run(w: World, name: string, steps: seq<Step>): World
    decreases |steps|
  {
    if steps == [] then w
    else Apply(Run(w, name, steps[..|steps| - 1]), name, steps[|steps| - 1])
  }

  ghost predicate IsRun(w: World, name: string, steps: seq<Step>) {
    forall i :: 0 <= i < |steps| ==> Enabled(Run(w, name, steps[..i]), name, steps[i])
  }

  function Before(counter: nat): World {
    World(counter, [], false, 0, 0, 0, true)
  }

  /** Over any run of prints, spooler restarts and sweeps, with the queue missing from some, reseeds, evictions, and
      state files not written or torn: never more pages emitted than printed since the queue was recorded, plus
      those that a file left as it was lets the next sweep emit again. While no baseline was lost, to a reseed, an
      eviction, a restart or a torn file, emitted and still owed pages are exactly the printed ones if and only if
      no sweep emitted pages and left the old file. */
  lemma {:induction false} PagesAreConserved(counter: nat, name: string, steps: seq<Step>)
    requires IsRun(Before(counter), name, steps)
    ensures var w := Run(Before(counter), name, steps);
      && w.emitted + Owed(w, name) <= w.printed + w.twice
      && (w.whole ==> w.emitted + Owed(w, name) == w.printed + w.twice)
      && (NoneRepeated(Before(counter), name, steps) ==> w.emitted <= w.printed)
      && (w.whole ==> (w.emitted + Owed(w, name) == w.printed <==> NoneRepeated(Before(counter), name, steps)))
      && Inv(w, name)
    decreases |steps|
  {
    var w0 := Before(counter);
    TwiceIsUnsaved(w0, name, steps);
    if steps == [] {
    } else {
      var n := |steps| - 1;
      forall i | 0 <= i < n
        ensures Enabled(Run(w0, name, steps[..n][..i]), name, steps[..n][i])
      {
        assert steps[..n][..i] == steps[..i];
      }
      PagesAreConserved(counter, name, steps[..n]);
      StepKeepsInv(Run(w0, name, steps[..n]), name, steps[n]);
    }
  }

  /** No sweep that emitted pages for the queue left the old file. */
  predicate NoneRepeated(w: World, name: string, steps: seq<Step>)
    decreases |steps|
  {
    steps == [] ||
    (&& NoneRepeated(w, name, steps[..|steps| - 1])
     && var last := steps[|steps| - 1];
        last.Sweep? && last.write.Untouched? ==> EmittedBy(Run(w, name, steps[..|steps| - 1]), name, last) == 0)
  }

  lemma {:induction false} TwiceIsUnsaved(w: World, name: string, steps: seq<Step>)
    requires w.twice == 0
    ensures Run(w, name, steps).twice == 0 <==> NoneRepeated(w, name, steps)
    decreases |steps|
  {
    hide PagesOf, Jobs, Kept, NewBase;
    if steps == [] {
    } else {
      TwiceIsUnsaved(w, name, steps[..|steps| - 1]);
    }
  }

  function EmittedBy(w: World, name: string, a: Step): nat
    requires a.Sweep?
  {
    PagesOf(Jobs(a.readings, if a.reseed then [] else w.baselines), name)
  }

  // ---- where the accounting needs its assumptions ----

  /** A sweep that leaves the old file leaves the old baseline, and the next sweep emits the same pages again. A
      torn file loses the baseline, and the next sweep seeds it without emitting anything. */
  lemma UnsavedSweepCountsTwice(readings: seq<Entry>, baselines: Base, name: string, counter: nat, write: Write)
    requires Honest(readings, name, counter) && name in Names(readings)
    requires Get(baselines, name).Some? && Get(baselines, name).value < counter
    ensures var delta := counter - Get(baselines, name).value;
      && PagesOf(Jobs(readings, baselines), name) == delta
      && PagesOf(Jobs(readings, Stored(baselines, Kept(baselines, NewBase(readings)), write)), name)
         == if write.Untouched? then delta else 0
  {
    SweepOfQueue(readings, baselines, name, counter);
    SeenAreRetained(baselines, readings, name);
    SweepOfQueue(readings, Kept(baselines, NewBase(readings)), name, counter);
    SweepOfQueue(readings, [], name, counter);
  }

  /** Several queues under one name in one sweep: each is counted against the same baseline, so what is emitted
      beyond the last reading's own delta is nothing if and only if every other reading is the baseline itself or
      zero. */
  lemma {:induction false} SharedNameIsExact(readings: seq<Entry>, last: Entry, baselines: Base)
    requires Get(baselines, last.name).Some?
    ensures var base := Get(baselines, last.name).value;
      PagesOf(Jobs(readings + [last], baselines), last.name) == Delta(base, last.pages)
      <==> forall r :: r in readings && r.name == last.name ==> r.pages == base || r.pages == 0
  {
    OneReading(readings, last, baselines);
    OneJob(last, baselines, last.name);
    PagesOfPlus(Jobs(readings, baselines), JobsOf(last, baselines), last.name);
    NothingEmitted(readings, last.name, baselines);
  }

  lemma {:induction false} NothingEmitted(readings: seq<Entry>, name: string, baselines: Base)
    requires Get(baselines, name).Some?
    ensures PagesOf(Jobs(readings, baselines), name) == 0
      <==> forall r :: r in readings && r.name == name ==> r.pages == Get(baselines, name).value || r.pages == 0
    decreases |readings|
  {
    if readings == [] {
    } else {
      var n := |readings| - 1;
      assert readings == readings[..n] + [readings[n]];
      assert forall r :: r in readings <==> r in readings[..n] || r == readings[n];
      NothingEmitted(readings[..n], name, baselines);
      OneJob(readings[n], baselines, name);
      PagesOfPlus(Jobs(readings[..n], baselines), JobsOf(readings[n], baselines), name);
    }
  }

  /** Two queues under one name over two sweeps, with counters that grow from `a` and `b` to `a'` and `b'`. The
      later one's reading is the baseline of both, so no more pages are emitted than were printed if and only if the
      other queue started at zero and stays below that baseline, or started no higher than it. */
  lemma SharedNameVersusPrinted(others: seq<Entry>, name: string, a: nat, b: nat, a': nat, b': nat, before: Base)
    requires a <= a' && b <= b' && name !in Names(others)
    ensures var first, second := others + [Entry(name, a), Entry(name, b)], others + [Entry(name, a'), Entry(name, b')];
      var emitted := PagesOf(Jobs(second, Kept(before, NewBase(first))), name);
      && emitted == Delta(b, a') + (b' - b)
      && (emitted <= (a' - a) + (b' - b) <==> if a' < b then a == 0 else a <= b)
  {
    hide PagesOf, Jobs, NewBase, Kept, Names;
    var first := others + [Entry(name, a)] + [Entry(name, b)];
    var second := others + [Entry(name, a')] + [Entry(name, b')];
    assert others + [Entry(name, a), Entry(name, b)] == first && others + [Entry(name, a'), Entry(name, b')] == second;
    OneReading(others + [Entry(name, a)], Entry(name, b), before);
    GetAssign(NewBase(others + [Entry(name, a)]), name, b, name);
    LastIsNamed(others + [Entry(name, a)], name, b);
    SeenAreRetained(before, first, name);
    var base := Kept(before, NewBase(first));
    OneReading(others, Entry(name, a'), base);
    OneReading(others + [Entry(name, a')], Entry(name, b'), base);
    PagesOfPlus(Jobs(others, base), JobsOf(Entry(name, a'), base), name);
    PagesOfPlus(Jobs(others + [Entry(name, a')], base), JobsOf(Entry(name, b'), base), name);
    OneJob(Entry(name, a'), base, name);
    OneJob(Entry(name, b'), base, name);
    OthersEmitNothing(others, base, name);
  }

  lemma LastIsNamed(readings: seq<Entry>, name: string, pages: nat)
    ensures name in Names(readings + [Entry(name, pages)])
  {
    assert (readings + [Entry(name, pages)])[|readings|] == Entry(name, pages);
  }

  lemma {:induction false} OthersEmitNothing(readings: seq<Entry>, baselines: Base, name: string)
    requires name !in Names(readings)
    ensures PagesOf(Jobs(readings, baselines), name) == 0
    decreases |readings|
  {
    if readings == [] {
    } else {
      var n := |readings| - 1;
      assert readings[n] in readings;
      Slices(readings, n);
      OthersEmitNothing(readings[..n], baselines, name);
      PagesOfPlus(Jobs(readings[..n], baselines), JobsOf(readings[n], baselines), name);
      OneJob(readings[n], baselines, name);
    }
  }

  /** Two queues whose names agree in their first 256 characters share one baseline: with readings 10 and 20 that do
      not change, the first sweep seeds, and every later one emits 10 pages that nobody printed. */
  lemma SharedClippedName(prefix: string, isVirtual: string -> bool)
    requires |prefix| == MAX_NAME_LEN && !isVirtual(prefix)
    ensures var readings := Readings([Queue(prefix + "A", Some(10)), Queue(prefix + "B", Some(20))], isVirtual);
      && NewBase(readings) == [Entry(prefix, 20)]
      && PagesOf(Jobs(readings, [Entry(prefix, 20)]), prefix) == 10
  {
    hide Readings;
    TwoReadings(prefix, isVirtual);
    TwoJobs(prefix);
  }

  lemma TwoReadings(prefix: string, isVirtual: string -> bool)
    requires |prefix| == MAX_NAME_LEN && !isVirtual(prefix)
    ensures Readings([Queue(prefix + "A", Some(10)), Queue(prefix + "B", Some(20))], isVirtual)
            == [Entry(prefix, 10), Entry(prefix, 20)]
  {
    hide Readings;
    var p, q := Queue(prefix + "A", Some(10)), Queue(prefix + "B", Some(20));
    ClippedReading(prefix, "A", 10, isVirtual);
    ClippedReading(prefix, "B", 20, isVirtual);
    PlusEmpty(Readings([p, q], isVirtual));
    PlusEmpty([Entry(prefix, 10)]);
    PlusEmpty([Entry(prefix, 10), Entry(prefix, 20)]);
    NextReading([p, q], 0, [], isVirtual);
    NextReading([p, q], 1, [Entry(prefix, 10)], isVirtual);
    NoReadings([p, q], [], isVirtual);
    assert [p, q][1..] == [q] && [p, q][0..] == [p, q];
    assert [Entry(prefix, 10)] + [Entry(prefix, 20)] == [Entry(prefix, 10), Entry(prefix, 20)];
  }

  lemma ClippedReading(prefix: string, suffix: string, pages: nat, isVirtual: string -> bool)
    requires |prefix| == MAX_NAME_LEN && suffix != "" && !isVirtual(prefix)
    ensures ReadingOf(Queue(prefix + suffix, Some(pages)), isVirtual) == [Entry(prefix, pages)]
  {
    assert (prefix + suffix)[..MAX_NAME_LEN] == prefix;
  }

  lemma TwoJobs(prefix: string)
    ensures NewBase([Entry(prefix, 10), Entry(prefix, 20)]) == [Entry(prefix, 20)]
    ensures PagesOf(Jobs([Entry(prefix, 10), Entry(prefix, 20)], [Entry(prefix, 20)]), prefix) == 10
  {
    hide Jobs;
    hide JobsOf;
    hide PagesOf;
    hide NewBase;
    var a, b := Entry(prefix, 10), Entry(prefix, 20);
    EmptySweep([b], prefix);
    OneReading([], a, [b]);
    OneReading([a], b, [b]);
    assert [] + [a] == [a] && [a] + [b] == [a, b];
    OneJob(a, [b], prefix);
    OneJob(b, [b], prefix);
    PagesOfPlus(Jobs([a], [b]), JobsOf(b, [b]), prefix);
    PagesOfPlus(Jobs([], [b]), JobsOf(a, [b]), prefix);
  }

  lemma EmptySweep(baselines: Base, name: string)
    ensures NewBase([]) == [] && PagesOf(Jobs([], baselines), name) == 0
  {}
}
