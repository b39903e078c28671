/** The maintenance sweep of server/main.py over server/db.py: daily folds of raw rows, then the age
    prune. A sweep is many transactions; ingests, row caps, the clock and failures come in between.
    Times are seconds, days are UTC days counted from the epoch. */
module Rollup {
  import opened Wrappers
  import opened Sequences

  const DAY := 86400
  const CATCHUP_MAX_DAYS := 35

  datatype Kind = Heartbeat | Event

  /** `key` is "source:event_id" of an event; None when the event has no id. */
  datatype Row = Row(kind: Kind, device: string, at: nat, key: Option<string>)

  function DayOf(at: nat): nat {
    at / DAY
  }

  type Rows = map<nat, Row>
  type HbRollup = map<(string, nat), nat>
  type EvRollup = map<(string, nat, string), nat>

  // ---- which days a sweep folds ----

  function RowDays(rows: Rows): set<nat> {
    set id | id in rows :: DayOf(rows[id].at)
  }

  function Range(lo: nat, hi: nat): seq<nat>
    requires lo <= hi + 1
  {
    seq(hi + 1 - lo, i requires 0 <= i => lo + i)
  }

  predicate Ascending(s: seq<nat>) {
    forall i, j :: 0 <= i < j < |s| ==> s[i] < s[j]
  }

  predicate IsGreatest(m: nat, days: set<nat>) {
    m in days && forall d :: d in days ==> d <= m
  }

  lemma GreatestExists(days: set<nat>)
    requires days != {}
    ensures exists m :: IsGreatest(m, days)
  {
    var d :| d in days;
    var rest := days - {d};
    if rest == {} {
      assert forall e :: e in days ==> e == d || e in rest;
      assert IsGreatest(d, days);
    } else {
      GreatestExists(rest);
      var m :| IsGreatest(m, rest);
      assert forall e :: e in days ==> e == d || e in rest;
      assert IsGreatest(if d > m then d else m, days);
    }
  }

  ghost predicate IsSortedList(s: seq<nat>, days: set<nat>) {
    Ascending(s) && forall d :: d in s <==> d in days
  }

  function RollupDays(hb: HbRollup): set<nat> {
    set k | k in hb :: k.1
  }

  /** With nothing folded yet: every day that has rows. Otherwise from the last folded day, at most
      35 days back and at least yesterday, through today. */
  ghost predicate IsTarget(todo: seq<nat>, hb: HbRollup, rows: Rows, today: nat) {
    if hb == map[] then IsSortedList(todo, RowDays(rows))
    else
      exists last :: IsGreatest(last, RollupDays(hb))
        && Ascending(todo) && forall d: nat :: d in todo <==> FirstDay(last, today) <= d <= today
  }

  function FirstDay(last: nat, today: nat): int {
    var start := if last >= today - CATCHUP_MAX_DAYS then last else today - CATCHUP_MAX_DAYS;
    if start <= today - 1 then start else today - 1
  }

  /** `_rollup_target_days` */
  method TargetDays(hb: HbRollup, rows: Rows, today: nat) returns (todo: seq<nat>)
    ensures IsTarget(todo, hb, rows, today)
  {
    if hb != map[] {
      var days := RollupDays(hb);
      var k :| k in hb;
      assert k.1 in days;
      GreatestExists(days);
      var last :| IsGreatest(last, days);
      var first := FirstDay(last, today);
      var lo := if first < 0 then 0 else first;
      todo := Range(lo, today);
      forall d: nat ensures d in todo <==> FirstDay(last, today) <= d <= today {
        if FirstDay(last, today) <= d <= today {
          assert todo[d - lo] == d;
        }
      }
      return;
    }
    var left := RowDays(rows);
    todo := [];
    while left != {}
      invariant left <= RowDays(rows) && Ascending(todo)
      invariant forall d :: d in todo <==> d in RowDays(rows) - left
      invariant forall d, e :: d in left && e in todo ==> d < e
      decreases left
    {
      GreatestExists(left);
      var d :| IsGreatest(d, left);
      assert forall i :: 0 <= i < |todo| ==> todo[i] in todo;
      todo := [d] + todo;
      left := left - {d};
    }
  }

  // ---- folds ----

  function Devices(rows: Rows): set<string> {
    set id | id in rows :: rows[id].device
  }

  function CountOf(rows: Rows, device: string): nat {
    |set id | id in rows && rows[id].device == device|
  }

  /** The heartbeats of one day: what `rollup_heartbeats_daily` reads. */
  function HeartbeatsOf(rows: Rows, day: nat): Rows {
    map id | id in rows && rows[id].kind.Heartbeat? && DayOf(rows[id].at) == day :: rows[id]
  }

  /** A device's fold of the day is overwritten only if the new one saw no fewer rows, so the stored
      count of the day becomes the larger of the two. */
  ghost predicate IsFold(hb: HbRollup, hb': HbRollup, snapshot: Rows, day: nat, devices: set<string>) {
    && (forall k :: k in hb' <==> k in hb || (k.1 == day && k.0 in devices))
    && (forall k :: k in hb' ==>
          hb'[k] == if k.1 == day && k.0 in devices
                    then Max(if k in hb then hb[k] else 0, CountOf(snapshot, k.0)) else hb[k])
  }

  function Max(a: nat, b: nat): nat {
    if a >= b then a else b
  }

  function EventsOf(rows: Rows, day: nat): Rows {
    map id | id in rows && rows[id].kind.Event? && DayOf(rows[id].at) == day :: rows[id]
  }

  function KeyCount(rows: Rows, device: string, key: string): nat {
    |set id | id in rows && rows[id].device == device && rows[id].key == Some(key)|
  }

  /** The stored count of every key that the per-device cap kept becomes the larger of the two. */
  function FoldedEv(ev: EvRollup, snapshot: Rows, day: nat, kept: set<(string, string)>): EvRollup {
    ev + map k | k in kept && KeyCount(snapshot, k.0, k.1) > 0
                && ((k.0, day, k.1) !in ev || KeyCount(snapshot, k.0, k.1) >= ev[(k.0, day, k.1)])
         :: (k.0, day, k.1) := KeyCount(snapshot, k.0, k.1)
  }

  /** The loop of `rollup_heartbeats_daily`, one upsert a device. */
  method RollupHeartbeats(hb: HbRollup, snapshot: Rows, day: nat) returns (hb': HbRollup)
    ensures IsFold(hb, hb', snapshot, day, Devices(snapshot))
  {
    hide CountOf, IsFold;
    hb' := hb;
    var left := Devices(snapshot);
    NoFold(hb, snapshot, day);
    ghost var done: set<string> := {};
    while left != {}
      invariant done + left == Devices(snapshot) && done !! left
      invariant IsFold(hb, hb', snapshot, day, done)
      decreases left
    {
      var device :| device in left;
      OneMoreDevice(hb, hb', snapshot, day, done, device);
      var n := CountOf(snapshot, device);
      if (device, day) !in hb' || n >= hb'[(device, day)] {
        hb' := hb'[(device, day) := n];
      }
      left, done := left - {device}, done + {device};
    }
  }

  lemma NoFold(hb: HbRollup, snapshot: Rows, day: nat)
    ensures IsFold(hb, hb, snapshot, day, {})
  {}

  lemma OneMoreDevice(hb: HbRollup, hb': HbRollup, snapshot: Rows, day: nat, done: set<string>, device: string)
    requires IsFold(hb, hb', snapshot, day, done) && device !in done
    ensures var n := CountOf(snapshot, device);
      IsFold(hb, if (device, day) !in hb' || n >= hb'[(device, day)] then hb'[(device, day) := n] else hb',
             snapshot, day, done + {device})
  {
    hide CountOf;
  }

  // ---- the sweep as a state machine ----

  datatype Phase = Begin | HbRead(snapshot: Rows) | HbDone
  datatype Sweep = Idle | Rolling(start: nat, todo: seq<nat>, phase: Phase) | Rolled(start: nat)

  /** `lastDone`: the start of the last completed rollup, or the creation of the database. `folded`:
      the rows that were live during a completed fold of their day. `missed`: unfolded rows that the
      current sweep will not read, though their day is over. `lost`: unfolded rows pruned by age. */
  datatype Db = Db(now: nat, nextId: nat, rows: Rows, hb: HbRollup, ev: EvRollup, sweep: Sweep,
                   lastDone: nat, folded: set<nat>, missed: set<nat>, lost: set<nat>)

  datatype Config = Config(heartbeatRawDays: nat, eventsRawDays: nat, rollupDays: nat)

  /** `stamp` is the receipt time of a row: read from the clock before the row is stored. */
  datatype Step =
    | Tick(now: nat)
    | StoreHeartbeat(device: string, stamp: nat)
    | StoreEvents(device: string, stamp: nat, keys: seq<Option<string>>, kept: set<(string, string)>, dropped: set<nat>)
    | Drop(ids: set<nat>)           // row caps, purges of devices
    | SweepStarts(todo: seq<nat>)
    | ReadsHeartbeats
    | WritesHeartbeats(hb: HbRollup)
    | FoldsEvents(kept: set<(string, string)>)
    | RollupCompletes
    | SweepFails
    | Prunes

  function NewEvents(first: nat, device: string, at: nat, keys: seq<Option<string>>): (r: Rows)
    decreases |keys|
    ensures forall id :: id in r <==> first <= id < first + |keys|
    ensures forall id :: id in r ==> r[id].kind.Event? && r[id].device == device && r[id].at == at
  {
    if keys == [] then map[]
    else NewEvents(first + 1, device, at, keys[1..])[first := Row(Event, device, at, keys[0])]
  }

  function OfDevice(rows: Rows, device: string): Rows {
    map id | id in rows && rows[id].device == device :: rows[id]
  }

  /** Aged rows; retention 0 is off. Days of retention count back from `now`. */
  predicate Aged(c: Config, now: nat, r: Row) {
    var days := if r.kind.Heartbeat? then c.heartbeatRawDays else c.eventsRawDays;
    days > 0 && r.at < now - days * DAY
  }

  /** The sweep has still to read this row. */
  predicate StillToCome(sweep: Sweep, id: nat, r: Row) {
    && sweep.Rolling?
    && DayOf(r.at) in sweep.todo
    && (r.kind.Heartbeat? ==>
          match sweep.phase
          case Begin => true
          case HbRead(snapshot) => DayOf(r.at) == sweep.todo[0] ==> id in snapshot
          case HbDone => DayOf(r.at) in sweep.todo[1..])
  }

  /** Read by this sweep, or of a day that was not over when it started. */
  predicate Covered(sweep: Sweep, id: nat, r: Row) {
    !sweep.Idle? && (StillToCome(sweep, id, r) || DayOf(r.at) >= DayOf(sweep.start))
  }

  function NotCovered(rows: Rows, folded: set<nat>, sweep: Sweep): set<nat> {
    set id | id in rows && id !in folded && !Covered(sweep, id, rows[id])
  }

  ghost predicate Enabled(c: Config, s: Db, a: Step) {
    match a
    case Tick(now) => s.now <= now
    case StoreHeartbeat(_, stamp) => stamp <= s.now
    case StoreEvents(device, stamp, _, _, dropped) =>
      && stamp <= s.now
      && forall id :: id in dropped && id in s.rows ==> s.rows[id].kind.Event? && s.rows[id].device == device
    case Drop(_) => true
    case SweepStarts(todo) => s.sweep.Idle? && IsTarget(todo, s.hb, s.rows, DayOf(s.now))
    case ReadsHeartbeats => s.sweep.Rolling? && s.sweep.phase.Begin? && s.sweep.todo != []
    case WritesHeartbeats(hb) =>
      && s.sweep.Rolling? && s.sweep.phase.HbRead? && s.sweep.todo != []
      && IsFold(s.hb, hb, s.sweep.phase.snapshot, s.sweep.todo[0], Devices(s.sweep.phase.snapshot))
    case FoldsEvents(_) => s.sweep.Rolling? && s.sweep.phase.HbDone? && s.sweep.todo != []
    case RollupCompletes => s.sweep.Rolling? && s.sweep.todo == []
    case SweepFails => !s.sweep.Idle?
    case Prunes => s.sweep.Rolled?
  }

  function Gone(c: Config, s: Db): set<nat> {
    set id | id in s.rows && Aged(c, s.now, s.rows[id])
  }

  ghost function Apply(c: Config, s: Db, a: Step): Db
    requires Enabled(c, s, a)
  {
    match a
    case Tick(now) => s.(now := now)
    case StoreHeartbeat(device, stamp) =>
      var r := Row(Heartbeat, device, stamp, None);
      s.(rows := s.rows[s.nextId := r], nextId := s.nextId + 1,
         missed := if s.sweep.Idle? || Covered(s.sweep, s.nextId, r) then s.missed else s.missed + {s.nextId})
    case StoreEvents(device, stamp, keys, kept, dropped) =>
      // Inserted, folded and capped in one transaction.
      var rows := s.rows + NewEvents(s.nextId, device, stamp, keys);
      var sameDay := OfDevice(EventsOf(rows, DayOf(stamp)), device);
      s.(rows := rows - dropped, nextId := s.nextId + |keys|,
         ev := FoldedEv(s.ev, sameDay, DayOf(stamp), kept), folded := s.folded + sameDay.Keys)
    case Drop(ids) => s.(rows := s.rows - ids)
    case SweepStarts(todo) =>
      var sweep := Rolling(s.now, todo, Begin);
      s.(sweep := sweep, missed := NotCovered(s.rows, s.folded, sweep))
    case ReadsHeartbeats => s.(sweep := s.sweep.(phase := HbRead(HeartbeatsOf(s.rows, s.sweep.todo[0]))))
    case WritesHeartbeats(hb) =>
      s.(hb := hb, folded := s.folded + s.sweep.phase.snapshot.Keys, sweep := s.sweep.(phase := HbDone))
    case FoldsEvents(kept) =>
      var day := s.sweep.todo[0];
      s.(ev := FoldedEv(s.ev, EventsOf(s.rows, day), day, kept), folded := s.folded + EventsOf(s.rows, day).Keys,
         sweep := s.sweep.(todo := s.sweep.todo[1..], phase := Begin))
    case RollupCompletes => s.(sweep := Rolled(s.sweep.start), lastDone := s.sweep.start)
    case SweepFails => s.(sweep := Idle)
    case Prunes =>
      var keepFrom := if c.rollupDays > 0 then DayOf(s.now) - c.rollupDays else 0;
      s.(rows := s.rows - Gone(c, s), lost := s.lost + (Gone(c, s) - s.folded), sweep := Idle,
         hb := map k | k in s.hb && k.1 >= keepFrom :: s.hb[k],
         ev := map k | k in s.ev && k.1 >= keepFrom :: s.ev[k])
  }

  // ---- what a prune loses, exactly ----

  ghost predicate SweepOk(s: Db) {
    s.sweep.Rolling? ==>
      && Ascending(s.sweep.todo)
      && match s.sweep.phase
         case Begin => true
         case HbDone => s.sweep.todo != []
         case HbRead(snapshot) =>
           && s.sweep.todo != []
           && forall id :: id in snapshot ==>
                id < s.nextId && DayOf(snapshot[id].at) == s.sweep.todo[0]
                    && (id in s.rows ==> s.rows[id] == snapshot[id])
  }

  /** From any table: during a sweep, the unfolded rows outside its reach are exactly the missed ones. */
  ghost predicate Inv(s: Db) {
    && SweepOk(s)
    && (forall id :: id in s.rows || id in s.missed ==> id < s.nextId)
    && (!s.sweep.Idle? ==>
          forall id :: id in s.rows && id !in s.folded ==> (id in s.missed <==> !Covered(s.sweep, id, s.rows[id])))
  }

  /** A database as an older version left it: any rows, nothing under way. */
  function Legacy(now: nat, nextId: nat, rows: Rows, hb: HbRollup, ev: EvRollup): Db {
    Db(now, nextId, rows, hb, ev, Idle, now, {}, {}, {})
  }

  lemma DayMonotone(a: nat, b: nat)
    requires a <= b
    ensures DayOf(a) <= DayOf(b)
  {}

  lemma TargetAscends(todo: seq<nat>, hb: HbRollup, rows: Rows, today: nat)
    requires IsTarget(todo, hb, rows, today)
    ensures Ascending(todo)
  {}

  lemma StepKeepsInv(c: Config, s: Db, a: Step)
    requires Inv(s) && Enabled(c, s, a)
    ensures Inv(Apply(c, s, a))
  {
    hide FoldedEv, IsFold, IsTarget, Aged;
    match a
    case SweepStarts(todo) => TargetAscends(todo, s.hb, s.rows, DayOf(s.now));
    case ReadsHeartbeats => ReadKeepsInv(c, s);
    case WritesHeartbeats(hb) => WriteKeepsInv(c, s, hb);
    case FoldsEvents(kept) => FoldEventsKeepsInv(c, s, kept);
    case _ =>
  }

  lemma ReadKeepsInv(c: Config, s: Db)
    requires Inv(s) && Enabled(c, s, ReadsHeartbeats)
    ensures Inv(Apply(c, s, ReadsHeartbeats))
  {
    var s' := Apply(c, s, ReadsHeartbeats);
    forall id | id in s'.rows && id !in s'.folded
      ensures Covered(s'.sweep, id, s'.rows[id]) <==> Covered(s.sweep, id, s.rows[id])
    {
      assert DayOf(s.rows[id].at) == s.sweep.todo[0] && s.rows[id].kind.Heartbeat? ==> id in s'.sweep.phase.snapshot;
    }
  }

  lemma TailDays(todo: seq<nat>, d: nat)
    requires Ascending(todo) && todo != []
    ensures d in todo <==> d == todo[0] || d in todo[1..]
    ensures todo[0] !in todo[1..] && Ascending(todo[1..])
    ensures d in todo ==> todo[0] <= d
  {
    if d in todo {
      var i :| 0 <= i < |todo| && todo[i] == d;
      assert i > 0 ==> todo[1..][i - 1] == d;
    }
  }

  lemma WriteKeepsInv(c: Config, s: Db, hb: HbRollup)
    requires Inv(s) && Enabled(c, s, WritesHeartbeats(hb))
    ensures Inv(Apply(c, s, WritesHeartbeats(hb)))
  {
    hide IsFold, DayOf;
    var s' := Apply(c, s, WritesHeartbeats(hb));
    forall id | id in s'.rows && id !in s'.folded
      ensures Covered(s'.sweep, id, s'.rows[id]) <==> Covered(s.sweep, id, s.rows[id])
    {
      TailDays(s.sweep.todo, DayOf(s.rows[id].at));
    }
  }

  lemma FoldEventsKeepsInv(c: Config, s: Db, kept: set<(string, string)>)
    requires Inv(s) && Enabled(c, s, FoldsEvents(kept))
    ensures Inv(Apply(c, s, FoldsEvents(kept)))
  {
    hide FoldedEv;
    var s' := Apply(c, s, FoldsEvents(kept));
    var day := s.sweep.todo[0];
    TailDays(s.sweep.todo, day);
    forall id | id in s'.rows && id !in s'.folded
      ensures Covered(s'.sweep, id, s'.rows[id]) <==> Covered(s.sweep, id, s.rows[id])
    {
      TailDays(s.sweep.todo, DayOf(s.rows[id].at));
      assert id !in EventsOf(s.rows, day);
    }
  }

  /** Unfolded rows of the day on which the sweep started, or of a later one. */
  function Young(s: Db): set<nat>
    requires !s.sweep.Idle?
  {
    set id | id in s.rows && id !in s.folded && DayOf(s.rows[id].at) >= DayOf(s.sweep.start)
  }

  /** The aged rows that a prune finds missed by its sweep, or of its sweep's own day or later, and unfolded. */
  function Lost(c: Config, s: Db): set<nat>
    requires s.sweep.Rolled?
  {
    Gone(c, s) * (s.missed + Young(s)) - s.folded
  }

  /** Of the unfolded rows, an age prune deletes exactly these. */
  lemma PruneLosesExactlyMissed(c: Config, s: Db)
    requires Inv(s) && Enabled(c, s, Prunes)
    ensures Apply(c, s, Prunes).lost == s.lost + Lost(c, s)
    ensures Prompt(c, s, Prunes) ==> Gone(c, s) !! Young(s)
  {
    assert Gone(c, s) - s.folded == Lost(c, s);
  }

  /** No sweep lasts so long that its prune reaches into the UTC day on which it started. */
  ghost predicate Prompt(c: Config, s: Db, a: Step) {
    a.Prunes? && s.sweep.Rolled? ==>
      && (c.heartbeatRawDays > 0 ==> s.now - c.heartbeatRawDays * DAY <= DayOf(s.sweep.start) * DAY)
      && (c.eventsRawDays > 0 ==> s.now - c.eventsRawDays * DAY <= DayOf(s.sweep.start) * DAY)
  }

  ghost predicate IsRun(c: Config, s: Db, run: seq<Step>)
    decreases |run|
  {
    run == [] || (Enabled(c, s, run[0]) && IsRun(c, Apply(c, s, run[0]), run[1..]))
  }

  ghost function After(c: Config, s: Db, run: seq<Step>): Db
    requires IsRun(c, s, run)
    decreases |run|
  {
    if run == [] then s else After(c, Apply(c, s, run[0]), run[1..])
  }

  /** Some prune of the run deletes an unfolded aged row that its sweep missed, or that is of its sweep's day or
      later. */
  ghost predicate PrunesMissed(c: Config, s: Db, run: seq<Step>)
    requires IsRun(c, s, run)
    decreases |run|
  {
    run != [] && ((run[0].Prunes? && Lost(c, s) != {}) || PrunesMissed(c, Apply(c, s, run[0]), run[1..]))
  }

  /** Some prune of the run reaches an unfolded row of its sweep's own day or later. */
  ghost predicate PrunesYoung(c: Config, s: Db, run: seq<Step>)
    requires IsRun(c, s, run)
    decreases |run|
  {
    run != [] &&
    ((run[0].Prunes? && Gone(c, s) * Young(s) != {}) || PrunesYoung(c, Apply(c, s, run[0]), run[1..]))
  }

  ghost predicate AllPrompt(c: Config, s: Db, run: seq<Step>)
    requires IsRun(c, s, run)
    decreases |run|
  {
    run == [] || (Prompt(c, s, run[0]) && AllPrompt(c, Apply(c, s, run[0]), run[1..]))
  }

  lemma {:induction false} PromptPrunesNoneYoung(c: Config, s: Db, run: seq<Step>)
    requires Inv(s) && IsRun(c, s, run) && AllPrompt(c, s, run)
    ensures !PrunesYoung(c, s, run)
    decreases |run|
  {
    hide Apply, Enabled, Prompt, Inv, Gone, Young;
    if run == [] {
    } else {
      if run[0].Prunes? {
        PruneLosesExactlyMissed(c, s);
      }
      StepKeepsInv(c, s, run[0]);
      PromptPrunesNoneYoung(c, Apply(c, s, run[0]), run[1..]);
    }
  }

  /** From any table, legacy ones included, and over any run, with stamps of any age and sweeps of any length failing
      between any two transactions: something is pruned unfolded if and only if some prune deletes a row that
      its own sweep missed, or one of the day on which that sweep started, or later. Missed are the rows
      that its list left out when it started (`StartMisses`), and rows that came in with the stamp of an
      earlier day after that day was read. */
  lemma {:induction false} LosesIffPrunesMissed(c: Config, s: Db, run: seq<Step>)
    requires Inv(s) && IsRun(c, s, run)
    ensures Inv(After(c, s, run)) && s.lost <= After(c, s, run).lost
    ensures After(c, s, run).lost == s.lost || PrunesMissed(c, s, run)
    ensures s.lost == {} ==> (After(c, s, run).lost == {} <==> !PrunesMissed(c, s, run))
    decreases |run|
  {
    hide Apply, Enabled, Inv, Lost;
    if run == [] {
    } else {
      StepKeepsInv(c, s, run[0]);
      StepLoses(c, s, run[0]);
      LosesIffPrunesMissed(c, Apply(c, s, run[0]), run[1..]);
    }
  }

  lemma StepLoses(c: Config, s: Db, a: Step)
    requires Inv(s) && Enabled(c, s, a)
    ensures Apply(c, s, a).lost == s.lost + (if a.Prunes? then Lost(c, s) else {})
  {
    hide FoldedEv, IsFold, IsTarget, Lost;
    if a.Prunes? {
      PruneLosesExactlyMissed(c, s);
    }
  }

  /** What a sweep misses when it starts: once anything was folded, exactly the unfolded rows before the
      first day of its list; on a first backfill nothing. */
  lemma StartMisses(c: Config, s: Db, todo: seq<nat>, id: nat)
    requires Enabled(c, s, SweepStarts(todo)) && id in s.rows && id !in s.folded
    ensures s.hb == map[] ==> id !in Apply(c, s, SweepStarts(todo)).missed
    ensures forall last :: s.hb != map[] && IsGreatest(last, RollupDays(s.hb)) ==>
      (id in Apply(c, s, SweepStarts(todo)).missed <==> DayOf(s.rows[id].at) < FirstDay(last, DayOf(s.now)))
  {
    var d := DayOf(s.rows[id].at);
    if s.hb == map[] {
      assert d in RowDays(s.rows);
    } else {
      forall last | IsGreatest(last, RollupDays(s.hb))
        ensures id in Apply(c, s, SweepStarts(todo)).missed <==> d < FirstDay(last, DayOf(s.now))
      {
        RevisitedDays(todo, s.hb, s.rows, DayOf(s.now), last, d);
      }
    }
  }

  lemma RevisitedDays(todo: seq<nat>, hb: HbRollup, rows: Rows, today: nat, last: nat, day: nat)
    requires IsTarget(todo, hb, rows, today) && hb != map[] && IsGreatest(last, RollupDays(hb))
    ensures day in todo <==> FirstDay(last, today) <= day <= today
  {}

  // ---- when nothing is missed ----

  /** Each heartbeat is stored within the UTC day of its stamp. */
  ghost predicate SameDay(s: Db, a: Step) {
    a.StoreHeartbeat? ==> DayOf(a.stamp) == DayOf(s.now)
  }

  /** A sweep starts at most 35 days after the last completed rollup started. */
  ghost predicate OnTime(s: Db, a: Step) {
    a.SweepStarts? ==> DayOf(s.now) <= DayOf(s.lastDone) + CATCHUP_MAX_DAYS
  }

  /** Clocks and days in order, and no unfolded row missed. */
  ghost predicate Tidy(s: Db) {
    && Inv(s)
    && (forall id :: id in s.rows ==> s.rows[id].at <= s.now)
    && (forall k :: k in s.hb ==> k.1 <= DayOf(s.now))
    && (!s.sweep.Idle? ==> s.sweep.start <= s.now)
    && (s.sweep.Rolling? ==> forall d :: d in s.sweep.todo ==> d <= DayOf(s.sweep.start))
    && (forall id :: id in s.rows && id !in s.folded ==> id !in s.missed)
  }

  /** Before the first rollup has completed: nothing is folded at rest. */
  ghost predicate Unseeded(s: Db) {
    && Tidy(s) && !s.sweep.Rolled?
    && (s.sweep.Idle? ==> s.hb == map[])
    && (s.sweep.Rolling? ==> forall k :: k in s.hb ==> k.1 <= DayOf(s.sweep.start))
  }

  /** Afterwards: unfolded rows are no older than the last completed rollup, nor than any fold. */
  ghost predicate Seeded(s: Db) {
    && Tidy(s)
    && s.lastDone <= s.now && (!s.sweep.Idle? ==> s.lastDone <= s.sweep.start)
    && (forall id :: id in s.rows && id !in s.folded ==>
          DayOf(s.rows[id].at) >= DayOf(s.lastDone) && forall k :: k in s.hb ==> k.1 <= DayOf(s.rows[id].at))
  }

  lemma TargetIsPast(s: Db, todo: seq<nat>)
    requires Tidy(s) && IsTarget(todo, s.hb, s.rows, DayOf(s.now))
    ensures forall d :: d in todo ==> d <= DayOf(s.now)
  {
    forall id | id in s.rows ensures DayOf(s.rows[id].at) <= DayOf(s.now) {
      DayMonotone(s.rows[id].at, s.now);
    }
  }

  lemma StepKeepsTidy(c: Config, s: Db, a: Step)
    requires Tidy(s) && Enabled(c, s, a) && SameDay(s, a)
    requires a.SweepStarts? ==> Apply(c, s, a).missed == {}
    ensures Tidy(Apply(c, s, a))
  {
    hide FoldedEv, IsTarget, Aged, Inv, StillToCome;
    StepKeepsInv(c, s, a);
    match a
    case Tick(now) => DayMonotone(s.now, now);
    case StoreHeartbeat(_, stamp) =>
      if !s.sweep.Idle? {
        DayMonotone(s.sweep.start, s.now);
      }
      NewIdIsNotMissed(s);
    case StoreEvents(_, _, _, _, _) => StoreEventsKeepsTidy(c, s, a);
    case SweepStarts(todo) => TargetIsPast(s, todo);
    case WritesHeartbeats(hb) =>
      DayMonotone(s.sweep.start, s.now);
      assert s.sweep.todo[0] in s.sweep.todo;
    case FoldsEvents(_) => Slices(s.sweep.todo, 1);
    case _ =>
  }

  lemma NewIdIsNotMissed(s: Db)
    requires Inv(s)
    ensures s.nextId !in s.missed && s.nextId !in s.rows
  {}

  lemma StoreEventsKeepsTidy(c: Config, s: Db, a: Step)
    requires Tidy(s) && Enabled(c, s, a) && a.StoreEvents?
    ensures var s' := Apply(c, s, a);
      && (forall id :: id in s'.rows ==> s'.rows[id].at <= s'.now)
      && (forall id ::
            id in s'.rows && id !in s'.folded ==> id in s.rows && id !in s.folded && s'.rows[id] == s.rows[id])
  {
    hide FoldedEv;
    var added := NewEvents(s.nextId, a.device, a.stamp, a.keys);
    var rows := s.rows + added;
    forall id | id in added
      ensures id in OfDevice(EventsOf(rows, DayOf(a.stamp)), a.device)
    {
      assert rows[id] == added[id];
    }
  }

  /** With sweeps on time, a sweep of a seeded database misses nothing. */
  lemma SeededMissesNothing(c: Config, s: Db, todo: seq<nat>)
    requires Seeded(s) && Enabled(c, s, SweepStarts(todo)) && OnTime(s, SweepStarts(todo))
    ensures Apply(c, s, SweepStarts(todo)).missed == {}
  {
    forall id | id in s.rows && id !in s.folded
      ensures id !in Apply(c, s, SweepStarts(todo)).missed
    {
      StartMisses(c, s, todo, id);
      if s.hb != map[] {
        var k :| k in s.hb;
        assert k.1 in RollupDays(s.hb);
        GreatestExists(RollupDays(s.hb));
        var last :| IsGreatest(last, RollupDays(s.hb));
        DayMonotone(s.rows[id].at, s.now);
      }
    }
  }

  lemma BackfillMissesNothing(c: Config, s: Db, todo: seq<nat>)
    requires s.hb == map[] && Enabled(c, s, SweepStarts(todo))
    ensures Apply(c, s, SweepStarts(todo)).missed == {}
  {
    forall id | id in s.rows && id !in s.folded
      ensures id !in Apply(c, s, SweepStarts(todo)).missed
    {
      StartMisses(c, s, todo, id);
    }
  }

  lemma StepKeepsSeeded(c: Config, s: Db, a: Step)
    requires Seeded(s) && Enabled(c, s, a) && SameDay(s, a) && OnTime(s, a)
    ensures Seeded(Apply(c, s, a))
  {
    hide FoldedEv, IsTarget, Aged, Tidy;
    if a.SweepStarts? {
      SeededMissesNothing(c, s, a.todo);
    }
    StepKeepsTidy(c, s, a);
    TidyFacts(s);
    match a
    case Tick(now) => DayMonotone(s.now, now);
    case StoreHeartbeat(_, _) => DayMonotone(s.lastDone, s.now);
    case StoreEvents(_, _, _, _, _) => StoreEventsKeepsTidy(c, s, a);
    case WritesHeartbeats(hb) =>
      forall id | id in s.rows && id !in s.folded + s.sweep.phase.snapshot.Keys
        ensures s.sweep.todo[0] <= DayOf(s.rows[id].at)
      {
        WaitingIsLater(s, id);
      }
    case RollupCompletes =>
      forall id | id in s.rows && id !in s.folded
        ensures DayOf(s.rows[id].at) >= DayOf(s.sweep.start)
      {
        assert Covered(s.sweep, id, s.rows[id]);
      }
    case _ =>
  }

  lemma TidyFacts(s: Db)
    requires Tidy(s)
    ensures !s.sweep.Idle? ==> s.sweep.start <= s.now
    ensures !s.sweep.Idle? ==> forall id :: id in s.rows && id !in s.folded ==> Covered(s.sweep, id, s.rows[id])
    ensures s.sweep.Rolling? ==> forall d :: d in s.sweep.todo ==> d <= DayOf(s.sweep.start)
    ensures forall k :: k in s.hb ==> k.1 <= DayOf(s.now)
  {}

  /** Unfolded rows are never before the day that the sweep is at. */
  lemma WaitingIsLater(s: Db, id: nat)
    requires Tidy(s) && s.sweep.Rolling? && s.sweep.todo != [] && id in s.rows && id !in s.folded
    ensures s.sweep.todo[0] <= DayOf(s.rows[id].at)
  {
    TailDays(s.sweep.todo, DayOf(s.rows[id].at));
    assert s.sweep.todo[0] in s.sweep.todo;
    assert Covered(s.sweep, id, s.rows[id]);
  }

  /** The first rollup to complete seeds the database; until then only a failed sweep does harm. */
  lemma StepKeepsUnseeded(c: Config, s: Db, a: Step)
    requires Unseeded(s) && Enabled(c, s, a) && SameDay(s, a) && !a.SweepFails?
    ensures if a.RollupCompletes? then Seeded(Apply(c, s, a)) else Unseeded(Apply(c, s, a))
  {
    hide FoldedEv, IsTarget, Aged, Tidy;
    if a.SweepStarts? {
      BackfillMissesNothing(c, s, a.todo);
    }
    StepKeepsTidy(c, s, a);
    TidyFacts(s);
    match a
    case RollupCompletes => CompletedIsSeeded(c, s);
    case WritesHeartbeats(_) => assert s.sweep.todo[0] in s.sweep.todo;
    case _ =>
  }

  lemma CompletedIsSeeded(c: Config, s: Db)
    requires Unseeded(s) && Enabled(c, s, RollupCompletes)
    requires Tidy(Apply(c, s, RollupCompletes))
    ensures Seeded(Apply(c, s, RollupCompletes))
  {
    forall id | id in s.rows && id !in s.folded
      ensures DayOf(s.rows[id].at) >= DayOf(s.sweep.start)
    {
      assert Covered(s.sweep, id, s.rows[id]);
    }
  }

  /** A run whose heartbeats are stored within the day of their stamp and whose sweeps are on time. */
  ghost predicate IsCalmRun(c: Config, s: Db, run: seq<Step>)
    decreases |run|
  {
    run == [] ||
    (&& Enabled(c, s, run[0]) && SameDay(s, run[0]) && OnTime(s, run[0])
     && IsCalmRun(c, Apply(c, s, run[0]), run[1..]))
  }

  lemma {:induction false} CalmIsRun(c: Config, s: Db, run: seq<Step>)
    requires IsCalmRun(c, s, run)
    ensures IsRun(c, s, run)
    decreases |run|
  {
    hide Apply, Enabled, SameDay, OnTime;
    if run == [] {
    } else {
      CalmIsRun(c, Apply(c, s, run[0]), run[1..]);
    }
  }

  /** Where nothing unfolded is missed, only young rows are left to lose. */
  lemma TidyLosesYoung(c: Config, s: Db)
    requires Tidy(s) && Enabled(c, s, Prunes)
    ensures Lost(c, s) == Gone(c, s) * Young(s)
  {}

  lemma {:induction false} SeededLosesYoung(c: Config, s: Db, run: seq<Step>)
    requires Seeded(s) && IsCalmRun(c, s, run) && IsRun(c, s, run)
    ensures PrunesMissed(c, s, run) <==> PrunesYoung(c, s, run)
    decreases |run|
  {
    hide Apply, Enabled, SameDay, OnTime, Lost, Gone, Young, Tidy;
    if run == [] {
    } else {
      StepKeepsSeeded(c, s, run[0]);
      if run[0].Prunes? {
        TidyLosesYoung(c, s);
      }
      SeededLosesYoung(c, Apply(c, s, run[0]), run[1..]);
    }
  }

  const Empty: Rows := map[]

  function Created(now: nat): Db {
    Legacy(now, 0, Empty, map[], map[])
  }

  /** From the creation of the database on, rows are pruned by age unfolded if and only if some prune reaches an
      unfolded row of its own sweep's day or later; so never, if no sweep lasts that long. Sweeps may fail between
      any two transactions, heartbeats may arrive between a fold's read and its write, row caps and purges may
      remove any rows. */
  lemma NothingPrunedUnfolded(c: Config, created: nat, run: seq<Step>)
    requires IsCalmRun(c, Created(created), run)
    ensures IsRun(c, Created(created), run)
    ensures After(c, Created(created), run).lost == {} <==> !PrunesYoung(c, Created(created), run)
    ensures AllPrompt(c, Created(created), run) ==> After(c, Created(created), run).lost == {}
  {
    CalmIsRun(c, Created(created), run);
    SeededLosesYoung(c, Created(created), run);
    LosesIffPrunesMissed(c, Created(created), run);
    if AllPrompt(c, Created(created), run) {
      PromptPrunesNoneYoung(c, Created(created), run);
    }
  }

  /** As above, but no sweep fails before the first rollup has completed; only after it sweeps must be on time. */
  ghost predicate FirstRollupCompletes(c: Config, s: Db, run: seq<Step>)
    decreases |run|
  {
    run == [] ||
    (&& Enabled(c, s, run[0]) && SameDay(s, run[0]) && !run[0].SweepFails?
     && if run[0].RollupCompletes? then IsCalmRun(c, Apply(c, s, run[0]), run[1..])
        else FirstRollupCompletes(c, Apply(c, s, run[0]), run[1..]))
  }

  lemma {:induction false} BackfillLosesYoung(c: Config, s: Db, run: seq<Step>)
    requires Unseeded(s) && FirstRollupCompletes(c, s, run)
    ensures IsRun(c, s, run) && (PrunesMissed(c, s, run) <==> PrunesYoung(c, s, run))
    decreases |run|
  {
    hide Apply, SameDay, Lost, Gone, Young, Tidy, IsTarget, IsFold;
    if run == [] {
    } else {
      StepKeepsUnseeded(c, s, run[0]);
      var s' := Apply(c, s, run[0]);
      if run[0].RollupCompletes? {
        CalmIsRun(c, s', run[1..]);
        SeededLosesYoung(c, s', run[1..]);
      } else {
        BackfillLosesYoung(c, s', run[1..]);
      }
    }
  }

  /** The same from a legacy table of any age, however long ago anything was folded, if its first rollup is not
      interrupted. */
  lemma LegacyBackfillLosesNothing(c: Config, now: nat, nextId: nat, rows: Rows, ev: EvRollup, run: seq<Step>)
    requires forall id :: id in rows ==> id < nextId && rows[id].at <= now
    requires FirstRollupCompletes(c, Legacy(now, nextId, rows, map[], ev), run)
    ensures var s := Legacy(now, nextId, rows, map[], ev);
      && IsRun(c, s, run)
      && (After(c, s, run).lost == {} <==> !PrunesYoung(c, s, run))
      && (AllPrompt(c, s, run) ==> After(c, s, run).lost == {})
  {
    var s := Legacy(now, nextId, rows, map[], ev);
    BackfillLosesYoung(c, s, run);
    LosesIffPrunesMissed(c, s, run);
    if AllPrompt(c, s, run) {
      PromptPrunesNoneYoung(c, s, run);
    }
  }

  // ---- when a row is missed for ever ----

  /** A heartbeat that no fold has seen, before the first day of every list to come. */
  ghost predicate Behind(s: Db, id: nat) {
    && Inv(s) && id in s.rows && id !in s.folded && s.rows[id].kind.Heartbeat?
    && (s.sweep.Idle? || !Covered(s.sweep, id, s.rows[id]))
    && exists last :: IsGreatest(last, RollupDays(s.hb)) && DayOf(s.rows[id].at) < FirstDay(last, DayOf(s.now))
  }

  lemma FirstDayAdvances(hb: HbRollup, hb': HbRollup, today: nat, today': nat, last: nat) returns (last': nat)
    requires IsGreatest(last, RollupDays(hb)) && today <= today' && hb.Keys <= hb'.Keys
    ensures IsGreatest(last', RollupDays(hb')) && FirstDay(last, today) <= FirstDay(last', today')
  {
    forall d | d in RollupDays(hb) ensures d in RollupDays(hb') {}
    GreatestExists(RollupDays(hb'));
    last' :| IsGreatest(last', RollupDays(hb'));
  }

  /** No step but a prune, or a removal of the row itself, changes that. */
  lemma BehindStays(c: Config, s: Db, a: Step, id: nat)
    requires Behind(s, id) && Enabled(c, s, a) && !a.Prunes? && (a.Drop? ==> id !in a.ids)
    ensures Behind(Apply(c, s, a), id) && Apply(c, s, a).rows[id] == s.rows[id]
  {
    hide FoldedEv, IsTarget, Aged, FirstDay;
    var s' := Apply(c, s, a);
    var last :| IsGreatest(last, RollupDays(s.hb)) && DayOf(s.rows[id].at) < FirstDay(last, DayOf(s.now));
    DayMonotone(s.now, s'.now);
    StepKeepsInv(c, s, a);
    BehindRowStays(c, s, a, id);
    if a.SweepStarts? {
      StartMisses(c, s, a.todo, id);
      assert last in RollupDays(s.hb);
    }
    var _ := FirstDayAdvances(s.hb, s'.hb, DayOf(s.now), DayOf(s'.now), last);
  }

  lemma BehindRowStays(c: Config, s: Db, a: Step, id: nat)
    requires Behind(s, id) && Enabled(c, s, a) && !a.Prunes? && (a.Drop? ==> id !in a.ids)
    ensures var s' := Apply(c, s, a);
      && id in s'.rows && s'.rows[id] == s.rows[id] && id !in s'.folded && s.hb.Keys <= s'.hb.Keys && s.now <= s'.now
      && (a.SweepStarts? || s'.sweep.Idle? || !Covered(s'.sweep, id, s'.rows[id]))
  {
    hide FoldedEv, IsTarget, Aged, FirstDay;
    match a
    case WritesHeartbeats(_) => TailDays(s.sweep.todo, DayOf(s.rows[id].at));
    case FoldsEvents(_) => TailDays(s.sweep.todo, DayOf(s.rows[id].at));
    case _ =>
  }

  /** So the first prune for which it is aged deletes it unfolded, however many sweeps fail or complete before. */
  lemma {:induction false} BehindIsLost(c: Config, s: Db, run: seq<Step>, id: nat)
    requires Behind(s, id) && IsRun(c, s, run + [Prunes])
    requires forall a :: a in run ==> !a.Prunes? && (a.Drop? ==> id !in a.ids)
    requires Aged(c, Clock(s.now, run), s.rows[id])
    ensures id in After(c, s, run + [Prunes]).lost
    decreases |run|
  {
    hide FoldedEv, IsFold, IsTarget, Aged, Behind, Enabled;
    if run == [] {
      assert [] + [Prunes] == [Prunes] && [Prunes][1..] == [];
      BehindIsPruned(c, s, id);
    } else {
      TailOfPlus(run, [Prunes]);
      assert forall a :: a in run[1..] ==> a in run;
      assert run[0] in run;
      BehindStays(c, s, run[0], id);
      BehindIsLost(c, Apply(c, s, run[0]), run[1..], id);
    }
  }

  function Clock(now: nat, run: seq<Step>): nat
    decreases |run|
  {
    if run == [] then now else Clock(if run[0].Tick? then run[0].now else now, run[1..])
  }

  lemma BehindIsPruned(c: Config, s: Db, id: nat)
    requires Behind(s, id) && Enabled(c, s, Prunes) && Aged(c, s.now, s.rows[id])
    ensures id in Apply(c, s, Prunes).lost
  {
    assert id in Gone(c, s);
  }

  /** A first backfill over old rows that stops after its oldest day, and the next sweep's list. */
  lemma InterruptedBackfillSkipsDays(rows: Rows, hb: HbRollup, todo: seq<nat>, next: seq<nat>, today: nat, i: nat)
    requires IsTarget(todo, map[], rows, today) && |todo| > 1 && 0 < i < |todo|
    requires todo[i] < today - CATCHUP_MAX_DAYS
    requires HeartbeatsOf(rows, todo[0]) != map[]
    requires IsFold(map[], hb, HeartbeatsOf(rows, todo[0]), todo[0], Devices(HeartbeatsOf(rows, todo[0])))
    requires IsTarget(next, hb, rows, today)
    ensures todo[i] !in next
  {
    var snapshot := HeartbeatsOf(rows, todo[0]);
    var id :| id in snapshot;
    assert rows[id].device in Devices(snapshot);
    assert (rows[id].device, todo[0]) in hb;
    assert forall k :: k in hb ==> k.1 == todo[0];
    assert IsGreatest(todo[0], RollupDays(hb));
    var last :| IsGreatest(last, RollupDays(hb))
      && Ascending(next) && forall d: nat :: d in next <==> FirstDay(last, today) <= d <= today;
    assert last == todo[0] < todo[i];
  }

  /** A first backfill that fails after its oldest day leaves every later heartbeat behind that is more than 35 days
      old: it is lost when it ages. */
  lemma InterruptedBackfillLeavesBehind(c: Config, s: Db, todo: seq<nat>, hb: HbRollup, id: nat)
    requires Inv(s) && s.hb == map[] && id in s.rows && id !in s.folded && s.rows[id].kind.Heartbeat?
    requires todo != [] && HeartbeatsOf(s.rows, todo[0]) != map[]
    requires todo[0] < DayOf(s.rows[id].at) < DayOf(s.now) - CATCHUP_MAX_DAYS
    requires IsRun(c, s, [SweepStarts(todo), ReadsHeartbeats, WritesHeartbeats(hb), SweepFails])
    ensures Behind(After(c, s, [SweepStarts(todo), ReadsHeartbeats, WritesHeartbeats(hb), SweepFails]), id)
  {
    hide FoldedEv, IsTarget, Aged, IsFold;
    assert [SweepStarts(todo), ReadsHeartbeats] + [WritesHeartbeats(hb), SweepFails]
           == [SweepStarts(todo), ReadsHeartbeats, WritesHeartbeats(hb), SweepFails];
    assert [WritesHeartbeats(hb), SweepFails] + [] == [WritesHeartbeats(hb), SweepFails];
    var s1 := TwoOf(c, s, SweepStarts(todo), ReadsHeartbeats, [WritesHeartbeats(hb), SweepFails]);
    var s2 := TwoOf(c, s1, WritesHeartbeats(hb), SweepFails, []);
    BackfillStopsEarly(c, s, s1, s2, todo, hb, id);
  }

  lemma BackfillStopsEarly(c: Config, s: Db, s1: Db, s2: Db, todo: seq<nat>, hb: HbRollup, id: nat)
    requires Inv(s) && s.hb == map[] && id in s.rows && id !in s.folded && s.rows[id].kind.Heartbeat?
    requires todo != [] && HeartbeatsOf(s.rows, todo[0]) != map[]
    requires todo[0] < DayOf(s.rows[id].at) < DayOf(s.now) - CATCHUP_MAX_DAYS
    requires Pair(c, s, SweepStarts(todo), ReadsHeartbeats, s1) && Pair(c, s1, WritesHeartbeats(hb), SweepFails, s2)
    ensures Behind(s2, id)
  {
    hide FoldedEv, IsTarget, Aged, IsFold;
    StepKeepsInv(c, s, SweepStarts(todo));
    StepKeepsInv(c, Apply(c, s, SweepStarts(todo)), ReadsHeartbeats);
    StepKeepsInv(c, s1, WritesHeartbeats(hb));
    StepKeepsInv(c, Apply(c, s1, WritesHeartbeats(hb)), SweepFails);
    OneDayFolded(map[], hb, s1.sweep.phase.snapshot, todo[0]);
    assert IsGreatest(todo[0], RollupDays(hb));
  }

  lemma FirstOf(c: Config, s: Db, run: seq<Step>)
    requires IsRun(c, s, run) && run != []
    ensures Enabled(c, s, run[0]) && IsRun(c, Apply(c, s, run[0]), run[1..])
    ensures After(c, s, run) == After(c, Apply(c, s, run[0]), run[1..])
  {}

  /** Two steps in a row. */
  ghost predicate Pair(c: Config, s: Db, a: Step, b: Step, s': Db) {
    Enabled(c, s, a) && Enabled(c, Apply(c, s, a), b) && s' == Apply(c, Apply(c, s, a), b)
  }

  lemma TwoOf(c: Config, s: Db, a: Step, b: Step, rest: seq<Step>) returns (s': Db)
    requires IsRun(c, s, [a, b] + rest)
    ensures Pair(c, s, a, b, s') && IsRun(c, s', rest) && After(c, s, [a, b] + rest) == After(c, s', rest)
  {
    hide Apply, Enabled;
    FirstOf(c, s, [a, b] + rest);
    assert ([a, b] + rest)[1..] == [b] + rest && ([b] + rest)[1..] == rest;
    FirstOf(c, Apply(c, s, a), [b] + rest);
    s' := Apply(c, Apply(c, s, a), b);
  }

  /** A fold of a day with heartbeats puts the day among the folded ones. */
  lemma OneDayFolded(hb: HbRollup, hb': HbRollup, snapshot: Rows, day: nat)
    requires IsFold(hb, hb', snapshot, day, Devices(snapshot)) && snapshot != map[]
    ensures day in RollupDays(hb')
    ensures hb == map[] ==> forall k :: k in hb' ==> k.1 == day
  {
    var id :| id in snapshot;
    assert snapshot[id].device in Devices(snapshot);
    assert (snapshot[id].device, day) in hb';
  }

  /** A heartbeat stamped before midnight and stored after the sweep of the new day has read the old one. Once that
      sweep has folded a heartbeat of the new day and the day after has come, the late row is behind. */
  lemma LateStoreLeavesBehind(c: Config, s: Db, device: string, stamp: nat, hb: HbRollup,
                              kept: set<(string, string)>, later: nat)
    requires Inv(s) && s.sweep.Rolling? && s.sweep.todo == [DayOf(s.sweep.start)] && s.sweep.phase.Begin?
    requires DayOf(stamp) < DayOf(s.sweep.start) < DayOf(later)
    requires c.rollupDays > 0 ==> DayOf(s.now) - c.rollupDays <= DayOf(s.sweep.start)
    requires HeartbeatsOf(s.rows, DayOf(s.sweep.start)) != map[]
    requires !Aged(c, s.now, Row(Heartbeat, device, stamp, None)) && s.nextId !in s.folded
    requires IsRun(c, s, [StoreHeartbeat(device, stamp), ReadsHeartbeats]
                         + ([WritesHeartbeats(hb), FoldsEvents(kept)] + ([RollupCompletes, Prunes] + [Tick(later)])))
    ensures Behind(After(c, s, [StoreHeartbeat(device, stamp), ReadsHeartbeats]
                               + ([WritesHeartbeats(hb), FoldsEvents(kept)]
                                  + ([RollupCompletes, Prunes] + [Tick(later)]))), s.nextId)
  {
    hide FoldedEv, IsTarget, Aged, IsFold, Behind, Inv, HeartbeatsOf, Apply, Enabled, Pair;
    var s1 := TwoOf(c, s, StoreHeartbeat(device, stamp), ReadsHeartbeats,
                    [WritesHeartbeats(hb), FoldsEvents(kept)] + ([RollupCompletes, Prunes] + [Tick(later)]));
    var s2 := TwoOf(c, s1, WritesHeartbeats(hb), FoldsEvents(kept), [RollupCompletes, Prunes] + [Tick(later)]);
    var s3 := TwoOf(c, s2, RollupCompletes, Prunes, [Tick(later)]);
    FirstOf(c, s3, [Tick(later)]);
    assert [Tick(later)][1..] == [];
    LateStoreFolds(c, s, device, stamp, hb, kept, later, s1, s2, s3);
  }

  lemma LateStoreFolds(c: Config, s: Db, device: string, stamp: nat, hb: HbRollup, kept: set<(string, string)>,
                       later: nat, s1: Db, s2: Db, s3: Db)
    requires Inv(s) && s.sweep.Rolling? && s.sweep.todo == [DayOf(s.sweep.start)] && s.sweep.phase.Begin?
    requires DayOf(stamp) < DayOf(s.sweep.start) < DayOf(later)
    requires c.rollupDays > 0 ==> DayOf(s.now) - c.rollupDays <= DayOf(s.sweep.start)
    requires HeartbeatsOf(s.rows, DayOf(s.sweep.start)) != map[]
    requires !Aged(c, s.now, Row(Heartbeat, device, stamp, None)) && s.nextId !in s.folded
    requires Pair(c, s, StoreHeartbeat(device, stamp), ReadsHeartbeats, s1)
    requires Pair(c, s1, WritesHeartbeats(hb), FoldsEvents(kept), s2)
    requires Pair(c, s2, RollupCompletes, Prunes, s3) && Enabled(c, s3, Tick(later))
    ensures Behind(Apply(c, s3, Tick(later)), s.nextId)
  {
    hide FoldedEv, IsTarget, Aged, IsFold, Behind, Inv, StillToCome, NotCovered;
    StepKeepsInv(c, s, StoreHeartbeat(device, stamp));
    NewHeartbeatDayStays(s, device, stamp);
    LateSweep(c, Apply(c, s, StoreHeartbeat(device, stamp)), s.nextId, hb, kept);
    LatePrune(c, s2, s.nextId, DayOf(s.sweep.start), later);
  }

  lemma NewHeartbeatDayStays(s: Db, device: string, stamp: nat)
    requires Inv(s)
    ensures forall day :: HeartbeatsOf(s.rows, day) != map[] ==>
              HeartbeatsOf(s.rows[s.nextId := Row(Heartbeat, device, stamp, None)], day) != map[]
  {
    var rows := s.rows[s.nextId := Row(Heartbeat, device, stamp, None)];
    forall day | HeartbeatsOf(s.rows, day) != map[]
      ensures HeartbeatsOf(rows, day) != map[]
    {
      var id :| id in HeartbeatsOf(s.rows, day);
      assert id in HeartbeatsOf(rows, day);
    }
  }

  lemma LateSweep(c: Config, s: Db, id: nat, hb: HbRollup, kept: set<(string, string)>)
    requires Inv(s) && s.sweep.Rolling? && s.sweep.todo == [DayOf(s.sweep.start)] && s.sweep.phase.Begin?
    requires id in s.rows && id !in s.folded && s.rows[id].kind.Heartbeat?
        && DayOf(s.rows[id].at) < DayOf(s.sweep.start)
    requires HeartbeatsOf(s.rows, DayOf(s.sweep.start)) != map[]
    requires Enabled(c, s, ReadsHeartbeats)
    requires Enabled(c, Apply(c, s, ReadsHeartbeats), WritesHeartbeats(hb))
    requires Enabled(c, Apply(c, Apply(c, s, ReadsHeartbeats), WritesHeartbeats(hb)), FoldsEvents(kept))
    ensures var s' := Apply(c, Apply(c, Apply(c, s, ReadsHeartbeats), WritesHeartbeats(hb)), FoldsEvents(kept));
      && Inv(s') && s'.sweep == Rolling(s.sweep.start, [], Begin) && s'.now == s.now && s'.rows == s.rows
      && id in s'.rows && s'.rows[id] == s.rows[id] && id !in s'.folded
      && DayOf(s.sweep.start) in RollupDays(s'.hb)
  {
    hide FoldedEv, IsTarget, Aged, IsFold;
    var s1 := Apply(c, s, ReadsHeartbeats);
    var s2 := Apply(c, s1, WritesHeartbeats(hb));
    StepKeepsInv(c, s, ReadsHeartbeats);
    StepKeepsInv(c, s1, WritesHeartbeats(hb));
    StepKeepsInv(c, s2, FoldsEvents(kept));
    OneDayFolded(s1.hb, hb, s1.sweep.phase.snapshot, DayOf(s.sweep.start));
  }

  lemma LatePrune(c: Config, s: Db, id: nat, day: nat, later: nat)
    requires Inv(s) && s.sweep.Rolling? && s.sweep.todo == [] && s.sweep.phase.Begin? && day == DayOf(s.sweep.start)
    requires id in s.rows && id !in s.folded && s.rows[id].kind.Heartbeat? && DayOf(s.rows[id].at) < day < DayOf(later)
    requires day in RollupDays(s.hb) && !Aged(c, s.now, s.rows[id]) && s.now <= later
    requires c.rollupDays > 0 ==> DayOf(s.now) - c.rollupDays <= day
    ensures Enabled(c, s, RollupCompletes)
    ensures var s1 := Apply(c, s, RollupCompletes);
      Enabled(c, s1, Prunes) && Enabled(c, Apply(c, s1, Prunes), Tick(later))
      && Behind(Apply(c, Apply(c, s1, Prunes), Tick(later)), id)
  {
    hide FoldedEv, IsTarget, Aged, IsFold;
    var s1 := Apply(c, s, RollupCompletes);
    var s2 := Apply(c, s1, Prunes);
    var s3 := Apply(c, s2, Tick(later));
    StepKeepsInv(c, s, RollupCompletes);
    StepKeepsInv(c, s1, Prunes);
    StepKeepsInv(c, s2, Tick(later));
    var k :| k in s.hb && k.1 == day;
    assert k in s3.hb;
    assert day in RollupDays(s3.hb);
    GreatestExists(RollupDays(s3.hb));
    var last :| IsGreatest(last, RollupDays(s3.hb));
  }

  // ---- runs that lose a row ----

  ghost predicate CanLose(c: Config, s: Db, id: nat) {
    exists run :: IsRun(c, s, run) && id in After(c, s, run).lost
  }

  lemma LostNow(c: Config, s: Db, id: nat)
    requires id in s.lost
    ensures CanLose(c, s, id)
  {
    assert IsRun(c, s, []) && After(c, s, []) == s;
  }

  lemma CanLoseAfter(c: Config, s: Db, a: Step, id: nat)
    requires Enabled(c, s, a) && CanLose(c, Apply(c, s, a), id)
    ensures CanLose(c, s, id)
  {
    hide Apply, Enabled;
    var rest :| IsRun(c, Apply(c, s, a), rest) && id in After(c, Apply(c, s, a), rest).lost;
    ConsTail(a, rest);
    assert IsRun(c, s, [a] + rest) && After(c, s, [a] + rest) == After(c, Apply(c, s, a), rest);
  }

  lemma FoldExists(hb: HbRollup, snapshot: Rows, day: nat) returns (hb': HbRollup)
    ensures IsFold(hb, hb', snapshot, day, Devices(snapshot))
  {
    hide CountOf;
    var devices := Devices(snapshot);
    var fresh_ := set d | d in devices :: (d, day);
    hb' := map k | k in hb.Keys + fresh_ ::
      if k.1 == day && k.0 in devices then Max(if k in hb then hb[k] else 0, CountOf(snapshot, k.0)) else hb[k];
  }

  lemma TargetExists(hb: HbRollup, rows: Rows, today: nat, last: nat) returns (todo: seq<nat>)
    requires IsGreatest(last, RollupDays(hb))
    ensures IsTarget(todo, hb, rows, today)
  {
    var k :| k in hb && k.1 == last;
    var first := FirstDay(last, today);
    var lo := if first < 0 then 0 else first;
    todo := Range(lo, today);
    forall d: nat ensures d in todo <==> first <= d <= today {
      if first <= d <= today {
        assert todo[d - lo] == d;
      }
    }
  }

  /** Whatever the row's sweep has still to do can be done, and the prune after it takes the row. */
  lemma {:induction false} RollingCanLose(c: Config, s: Db, id: nat)
    requires Behind(s, id) && s.sweep.Rolling? && s.sweep.phase.Begin? && Aged(c, s.now, s.rows[id])
    ensures CanLose(c, s, id)
    decreases |s.sweep.todo|
  {
    hide FoldedEv, IsTarget, Aged, IsFold, Behind, CanLose;
    if s.sweep.todo == [] {
      BehindStays(c, s, RollupCompletes, id);
      var s1 := Apply(c, s, RollupCompletes);
      BehindIsPruned(c, s1, id);
      LostNow(c, Apply(c, s1, Prunes), id);
      CanLoseAfter(c, s1, Prunes, id);
      CanLoseAfter(c, s, RollupCompletes, id);
    } else {
      var s1 := Apply(c, s, ReadsHeartbeats);
      BehindStays(c, s, ReadsHeartbeats, id);
      var hb := FoldExists(s1.hb, s1.sweep.phase.snapshot, s1.sweep.todo[0]);
      var s2 := Apply(c, s1, WritesHeartbeats(hb));
      BehindStays(c, s1, WritesHeartbeats(hb), id);
      var s3 := Apply(c, s2, FoldsEvents({}));
      BehindStays(c, s2, FoldsEvents({}), id);
      RollingCanLose(c, s3, id);
      CanLoseAfter(c, s2, FoldsEvents({}), id);
      CanLoseAfter(c, s1, WritesHeartbeats(hb), id);
      CanLoseAfter(c, s, ReadsHeartbeats, id);
    }
  }

  lemma BehindHas(s: Db, id: nat) returns (last: nat)
    requires Behind(s, id)
    ensures id in s.rows && s.rows[id].kind.Heartbeat? && IsGreatest(last, RollupDays(s.hb))
  {
    last :| IsGreatest(last, RollupDays(s.hb)) && DayOf(s.rows[id].at) < FirstDay(last, DayOf(s.now));
  }

  /** A row left behind can be lost, whenever heartbeats age at all. */
  lemma BehindCanBeLost(c: Config, s: Db, id: nat)
    requires Behind(s, id) && s.sweep.Idle? && c.heartbeatRawDays > 0
    ensures CanLose(c, s, id)
  {
    hide FoldedEv, IsTarget, IsFold, Behind, CanLose;
    var _ := BehindHas(s, id);
    var later := s.now + s.rows[id].at + c.heartbeatRawDays * DAY + 1;
    BehindStays(c, s, Tick(later), id);
    var s1 := Apply(c, s, Tick(later));
    var last := BehindHas(s1, id);
    assert Aged(c, s1.now, s1.rows[id]);
    var todo := TargetExists(s1.hb, s1.rows, DayOf(s1.now), last);
    BehindStays(c, s1, SweepStarts(todo), id);
    RollingCanLose(c, Apply(c, s1, SweepStarts(todo)), id);
    CanLoseAfter(c, s1, SweepStarts(todo), id);
    CanLoseAfter(c, s, Tick(later), id);
  }

  const Monthly := Config(30, 0, 0)

  function Beat(at: nat): Row {
    Row(Heartbeat, "a", at, None)
  }

  lemma OneBeatFolds(hb: HbRollup, id: nat, day: nat)
    requires hb == map[("a", day) := 1]
    ensures IsFold(map[], hb, map[id := Beat(day * DAY)], day, Devices(map[id := Beat(day * DAY)]))
  {
    var snapshot: Rows := map[id := Beat(day * DAY)];
    assert snapshot[id].device == "a" && Devices(snapshot) == {"a"};
    assert (set i | i in snapshot && snapshot[i].device == "a") == {id};
  }

  /** Two old heartbeats, a hundred days after the first, and a first rollup that fails once it has folded the first:
      the second is left behind and lost. */
  lemma InterruptedBackfillLoses()
    ensures var s := Legacy(100 * DAY, 2, map[0 := Beat(0), 1 := Beat(10 * DAY)], map[], map[]);
      var run := [SweepStarts([0, 10]), ReadsHeartbeats, WritesHeartbeats(map[("a", 0) := 1]), SweepFails];
      IsRun(Monthly, s, run) && Behind(After(Monthly, s, run), 1) && CanLose(Monthly, After(Monthly, s, run), 1)
  {
    hide CanLose, FoldedEv, Aged, IsFold;
    var c, rows: Rows := Monthly, map[0 := Beat(0), 1 := Beat(10 * DAY)];
    var s, hb := Legacy(100 * DAY, 2, rows, map[], map[]), map[("a", 0) := 1];
    var run := [SweepStarts([0, 10]), ReadsHeartbeats, WritesHeartbeats(hb), SweepFails];
    assert DayOf(0) == 0 && DayOf(10 * DAY) == 10 && DayOf(100 * DAY) == 100;
    assert IsTarget([0, 10], map[], rows, 100) by {
      assert rows[0] == Beat(0) && rows[1] == Beat(10 * DAY);
      assert 0 in RowDays(rows) && 10 in RowDays(rows);
    }
    assert HeartbeatsOf(rows, 0) == map[0 := Beat(0 * DAY)];
    OneBeatFolds(hb, 0, 0);
    var s1 := Apply(c, s, SweepStarts([0, 10]));
    var s2 := Apply(c, s1, ReadsHeartbeats);
    var s3 := Apply(c, s2, WritesHeartbeats(hb));
    RunOfFour(c, s, SweepStarts([0, 10]), ReadsHeartbeats, WritesHeartbeats(hb), SweepFails);
    InterruptedBackfillLeavesBehind(c, s, [0, 10], hb, 1);
    BehindCanBeLost(c, After(c, s, run), 1);
  }

  lemma ConsRun(c: Config, s: Db, a: Step, rest: seq<Step>)
    requires Enabled(c, s, a) && IsRun(c, Apply(c, s, a), rest)
    ensures IsRun(c, s, [a] + rest) && After(c, s, [a] + rest) == After(c, Apply(c, s, a), rest)
  {
    hide Enabled, Apply;
    ConsTail(a, rest);
  }

  lemma RunOfFour(c: Config, s: Db, a: Step, b: Step, d: Step, e: Step)
    requires Enabled(c, s, a) && Enabled(c, Apply(c, s, a), b) && Enabled(c, Apply(c, Apply(c, s, a), b), d)
    requires Enabled(c, Apply(c, Apply(c, Apply(c, s, a), b), d), e)
    ensures IsRun(c, s, [a, b, d, e])
    ensures After(c, s, [a, b, d, e]) == Apply(c, Apply(c, Apply(c, Apply(c, s, a), b), d), e)
  {
    hide Enabled, Apply;
    var s3 := Apply(c, Apply(c, Apply(c, s, a), b), d);
    assert IsRun(c, Apply(c, s3, e), []) && After(c, Apply(c, s3, e), []) == Apply(c, s3, e);
    ConsRun(c, s3, e, []);
    ConsRun(c, Apply(c, Apply(c, s, a), b), d, [e] + []);
    ConsRun(c, Apply(c, s, a), b, [d] + ([e] + []));
    ConsRun(c, s, a, [b] + ([d] + ([e] + [])));
    assert [a] + ([b] + ([d] + ([e] + []))) == [a, b, d, e];
  }

  lemma PairCanLose(c: Config, s: Db, a: Step, b: Step, s': Db, id: nat)
    requires Pair(c, s, a, b, s') && CanLose(c, s', id)
    ensures CanLose(c, s, id)
  {
    hide Apply, Enabled, CanLose;
    CanLoseAfter(c, Apply(c, s, a), b, id);
    CanLoseAfter(c, s, a, id);
  }

  function LateStart(): Db {
    Db(10 * DAY, 1, map[0 := Beat(10 * DAY)], map[], map[], Rolling(10 * DAY, [10], Begin), 10 * DAY, {}, {}, {})
  }

  lemma LateSweepStarts()
    ensures Pair(Monthly, Created(10 * DAY), StoreHeartbeat("a", 10 * DAY), SweepStarts([10]), LateStart())
    ensures Inv(LateStart())
  {
    hide FoldedEv, Aged, IsFold;
    var s := Created(10 * DAY);
    assert DayOf(10 * DAY) == 10;
    var s0 := Apply(Monthly, s, StoreHeartbeat("a", 10 * DAY));
    assert s0.rows == map[0 := Beat(10 * DAY)];
    assert IsTarget([10], map[], s0.rows, 10) by {
      assert s0.rows[0] == Beat(10 * DAY);
      assert 10 in RowDays(s0.rows);
    }
    StepKeepsInv(Monthly, s, StoreHeartbeat("a", 10 * DAY));
    StepKeepsInv(Monthly, s0, SweepStarts([10]));
    assert Apply(Monthly, s0, SweepStarts([10])).missed == {};
  }

  /** Two enabled steps, whatever they lead to. */
  ghost predicate CanPair(c: Config, s: Db, a: Step, b: Step) {
    Enabled(c, s, a) && Enabled(c, Apply(c, s, a), b)
  }

  ghost function PairOf(c: Config, s: Db, a: Step, b: Step): (s': Db)
    requires CanPair(c, s, a, b)
    ensures Pair(c, s, a, b, s')
  {
    Apply(c, Apply(c, s, a), b)
  }

  lemma LateSweepFolds(s: Db, hb: HbRollup)
    requires s == LateStart() && hb == map[("a", 10) := 1]
    ensures CanPair(Monthly, s, StoreHeartbeat("a", 10 * DAY - 1), ReadsHeartbeats)
    ensures var s1 := PairOf(Monthly, s, StoreHeartbeat("a", 10 * DAY - 1), ReadsHeartbeats);
      CanPair(Monthly, s1, WritesHeartbeats(hb), FoldsEvents({}))
    ensures HeartbeatsOf(s.rows, 10) != map[]
  {
    hide FoldedEv, Aged, IsFold;
    assert DayOf(10 * DAY) == 10 && DayOf(10 * DAY - 1) == 9;
    var s0 := Apply(Monthly, s, StoreHeartbeat("a", 10 * DAY - 1));
    assert HeartbeatsOf(s0.rows, 10) == map[0 := Beat(10 * DAY)];
    assert 0 in HeartbeatsOf(s.rows, 10);
    OneBeatFolds(hb, 0, 10);
  }

  /** A heartbeat, and the first sweep of its day; before that has read it, one of the last second of the day before
      is stored. A run from there loses the late one. */
  lemma LateStoreLoses()
    ensures CanLose(Monthly, Created(10 * DAY), 1)
  {
    hide CanLose, FoldedEv, Aged, IsFold, Behind, Pair, Enabled, Apply, Inv, HeartbeatsOf;
    var s, hb := LateStart(), map[("a", 10) := 1];
    var late := StoreHeartbeat("a", 10 * DAY - 1);
    assert DayOf(10 * DAY) == 10 && DayOf(10 * DAY - 1) == 9 && DayOf(11 * DAY) == 11;
    LateSweepStarts();
    LateSweepFolds(s, hb);
    var s1 := PairOf(Monthly, s, late, ReadsHeartbeats);
    var s2 := PairOf(Monthly, s1, WritesHeartbeats(hb), FoldsEvents({}));
    var s3 := LateSweepEnds(s, s1, s2, hb);
    LateStoreFolds(Monthly, s, "a", 10 * DAY - 1, hb, {}, 11 * DAY, s1, s2, s3);
    BehindCanBeLost(Monthly, Apply(Monthly, s3, Tick(11 * DAY)), 1);
    CanLoseAfter(Monthly, s3, Tick(11 * DAY), 1);
    PairCanLose(Monthly, s2, RollupCompletes, Prunes, s3, 1);
    PairCanLose(Monthly, s1, WritesHeartbeats(hb), FoldsEvents({}), s2, 1);
    PairCanLose(Monthly, s, late, ReadsHeartbeats, s1, 1);
    PairCanLose(Monthly, Created(10 * DAY), StoreHeartbeat("a", 10 * DAY), SweepStarts([10]), s, 1);
  }

  lemma LateSweepEnds(s: Db, s1: Db, s2: Db, hb: HbRollup) returns (s3: Db)
    requires s == LateStart()
    requires Pair(Monthly, s, StoreHeartbeat("a", 10 * DAY - 1), ReadsHeartbeats, s1)
    requires Pair(Monthly, s1, WritesHeartbeats(hb), FoldsEvents({}), s2)
    ensures Pair(Monthly, s2, RollupCompletes, Prunes, s3) && Enabled(Monthly, s3, Tick(11 * DAY))
    ensures s3.sweep.Idle? && !Aged(Monthly, s.now, Beat(10 * DAY - 1))
    ensures Apply(Monthly, s3, Tick(11 * DAY)).sweep.Idle?
  {
    hide FoldedEv, IsFold;
    s3 := PairOf(Monthly, s2, RollupCompletes, Prunes);
  }

  /** A sweep that lasts a day, with a retention of one: a heartbeat stored after its start is pruned by it unfolded. */
  lemma LongSweepLoses()
    ensures CanLose(Config(1, 0, 0), Created(10 * DAY), 0)
  {
    hide CanLose;
    var c := Config(1, 0, 0);
    var s := Created(10 * DAY);
    var s1 := Apply(c, s, SweepStarts([]));
    var beat := StoreHeartbeat("a", 10 * DAY);
    var s2 := Apply(c, s1, beat);
    var s3 := Apply(c, s2, RollupCompletes);
    var s4 := Apply(c, s3, Tick(11 * DAY + 1));
    assert 0 in Gone(c, s4);
    LostNow(c, Apply(c, s4, Prunes), 0);
    CanLoseAfter(c, s4, Prunes, 0);
    CanLoseAfter(c, s3, Tick(11 * DAY + 1), 0);
    CanLoseAfter(c, s2, RollupCompletes, 0);
    CanLoseAfter(c, s1, beat, 0);
    CanLoseAfter(c, s, SweepStarts([]), 0);
  }

  // ---- stored counts ----

  /** Every event is folded in the transaction that stores it, so for events no assumption on sweeps
      is needed. */
  lemma EventsAreFoldedAtBirth(c: Config, s: Db, device: string, stamp: nat, keys: seq<Option<string>>,
                               kept: set<(string, string)>, dropped: set<nat>)
    requires Enabled(c, s, StoreEvents(device, stamp, keys, kept, dropped))
    ensures forall id :: s.nextId <= id < s.nextId + |keys| ==>
              id in Apply(c, s, StoreEvents(device, stamp, keys, kept, dropped)).folded
  {
    hide FoldedEv;
    var added := NewEvents(s.nextId, device, stamp, keys);
    var rows := s.rows + added;
    forall id | s.nextId <= id < s.nextId + |keys|
      ensures id in OfDevice(EventsOf(rows, DayOf(stamp)), device)
    {
      assert id in added && rows[id] == added[id];
    }
  }

  /** A stored count never falls, however thin the raw rows of its day have become; it goes only with
      the whole day, by the rollup's own age. */
  lemma RefoldNeverLowers(c: Config, s: Db, a: Step, k: (string, nat), e: (string, nat, string))
    requires Enabled(c, s, a)
    ensures var s' := Apply(c, s, a);
      && (k in s.hb ==> if k in s'.hb then s'.hb[k] >= s.hb[k] else a.Prunes? && k.1 < DayOf(s.now) - c.rollupDays)
      && (e in s.ev ==> if e in s'.ev then s'.ev[e] >= s.ev[e] else a.Prunes? && e.1 < DayOf(s.now) - c.rollupDays)
  {}
}
