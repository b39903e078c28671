/** server/pipeline.py, `evaluate_trust`, server/trust and the two writers of server/db.py: trust of one source is
    set by ingests and aged by a sweep that reads, decides and writes in separate transactions. */
module TrustStaleness {
  import opened Wrappers
  import opened Sequences

  datatype Collector = CollectorOk | Partial | Empty | Timeout | Blocked | Absent

  datatype Semantic = Plausible | Implausible | Inconsistent | Frozen | KnownBad | Unchecked

  datatype State = Ok | Degraded | Stale | Unavailable | Suspect

  datatype Key = Key(device: string, source: string)

  /** `evidence` is `evidence_seen_at`, the server time of an ingest. Weights are in tenths. */
  datatype Row = Row(state: State, weight: nat, collector: Collector, semantic: Semantic, reason: string,
                     evidence: Option<int>)

  type Table = map<Key, Row>

  predicate IsSuspect(s: Semantic) {
    s in {Implausible, Inconsistent, Frozen, KnownBad}
  }

  /** `derive_state`; `aged` is an age over the threshold, false where there is no age. */
  function DeriveState(c: Collector, s: Semantic, aged: bool): State {
    if IsSuspect(s) then Suspect
    else if c in {Empty, Timeout, Blocked, Absent} then Unavailable
    else if aged then Stale
    else if c == Partial then Degraded
    else Ok
  }

  function Weight(s: State): nat {
    match s
    case Ok => 10
    case Degraded => 5
    case _ => 0
  }

  // ---- ingest ----

  /** One entry of `source_health` with what was extracted for it. `coercible` sources read "ok" with nothing in it as
      empty; sources that are not `known` are ignored. */
  datatype Health = Health(source: string, collector: Collector, emptyReading: bool, semantic: Semantic, reason: string,
                           known: bool, coercible: bool)

  function Coerced(h: Health): Collector {
    if h.collector == CollectorOk && h.emptyReading && h.coercible then Empty else h.collector
  }

  predicate HasEvidence(h: Health) {
    Coerced(h) == CollectorOk
  }

  function Upserted(t: Table, k: Key, state: State, weight: nat, c: Collector, s: Semantic, reason: string,
                    evidence: Option<int>): Table
  {
    var before := if k in t then t[k].evidence else None;
    t[k := Row(state, weight, c, s, reason, if evidence.Some? then evidence else before)]
  }

  function Ingested(t: Table, device: string, h: Health, receivedAt: int): Table {
    if !h.known then t
    else
      var state := DeriveState(Coerced(h), h.semantic, false);
      Upserted(t, Key(device, h.source), state, Weight(state), Coerced(h), h.semantic, h.reason,
               if HasEvidence(h) then Some(receivedAt) else None)
  }

  function IngestedAll(t: Table, device: string, hs: seq<Health>, receivedAt: int): Table
    decreases |hs|
  {
    if hs == [] then t
    else Ingested(IngestedAll(t, device, hs[..|hs| - 1], receivedAt), device, hs[|hs| - 1], receivedAt)
  }

  // ---- sweep ----

  /** A row that must change; `evidence` is the value it was computed from. */
  datatype Update = Update(state: State, weight: nat, reason: string, evidence: Option<int>)

  type Updates = map<Key, Update>

  predicate Aged(evidence: Option<int>, now: int, threshold: int) {
    evidence.Some? && now - evidence.value > threshold
  }

  /** `ages` are the sources with a reporting cadence. */
  predicate Changes(k: Key, r: Row, now: int, threshold: int, ages: string -> bool) {
    ages(k.source) && r.evidence.Some?
        && DeriveState(r.collector, r.semantic, Aged(r.evidence, now, threshold)) != r.state
  }

  function UpdateOf(r: Row, now: int, threshold: int, reason: string): Update {
    var state := DeriveState(r.collector, r.semantic, Aged(r.evidence, now, threshold));
    Update(state, Weight(state), reason, r.evidence)
  }

  function Reevaluated(t: Table, now: int, threshold: int, ages: string -> bool, reason: string): Updates {
    map k | k in t && Changes(k, t[k], now, threshold, ages) :: UpdateOf(t[k], now, threshold, reason)
  }

  /** `UPDATE ... WHERE ... AND evidence_seen_at IS ?` */
  predicate Matches(t: Table, k: Key, u: Update) {
    k in t && t[k].evidence == u.evidence
  }

  function Written(r: Row, u: Update): Row {
    r.(state := u.state, weight := u.weight, reason := u.reason)
  }

  function Applied(t: Table, us: Updates): Table {
    AppliedFor(t, us, us.Keys)
  }

  function AppliedFor(t: Table, us: Updates, done: set<Key>): Table {
    map k | k in t :: if k in us && k in done && Matches(t, k, us[k]) then Written(t[k], us[k]) else t[k]
  }

  function Hits(t: Table, us: Updates, done: set<Key>): set<Key> {
    set k | k in us && k in done && Matches(t, k, us[k])
  }

  lemma OneMoreUpdate(t: Table, us: Updates, done: set<Key>, k: Key)
    requires k in us && k !in done
    ensures Matches(AppliedFor(t, us, done), k, us[k]) <==> Matches(t, k, us[k])
    ensures AppliedFor(t, us, done + {k}) ==
              var b := AppliedFor(t, us, done); if Matches(t, k, us[k]) then b[k := Written(b[k], us[k])] else b
    ensures Hits(t, us, done + {k}) == Hits(t, us, done) + (if Matches(t, k, us[k]) then {k} else {})
    ensures k !in Hits(t, us, done)
  {}

  function Floor(threshold: int): int {
    if threshold < 60 then 60 else threshold
  }

  class Trust {
    var t: Table

    constructor ()
      ensures t == map[]
    {
      t := map[];
    }

    method UpsertSourceTrust(k: Key, state: State, weight: nat, c: Collector, s: Semantic, reason: string,
                             evidence: Option<int>)
      modifies this
      ensures t == Upserted(old(t), k, state, weight, c, s, reason, evidence)
    {
      if k in t && evidence.None? {
        t := t[k := Row(state, weight, c, s, reason, t[k].evidence)];
      } else {
        t := t[k := Row(state, weight, c, s, reason, evidence)];
      }
    }

    method EvaluateTrust(device: string, health: seq<Health>, receivedAt: int)
      modifies this
      ensures t == IngestedAll(old(t), device, health, receivedAt)
    {
      for i := 0 to |health|
        invariant t == IngestedAll(old(t), device, health[..i], receivedAt)
      {
        assert health[..i + 1][..i] == health[..i] && health[..i + 1][i] == health[i];
        var h := health[i];
        if !h.known {
          continue;
        }
        var status := h.collector;
        if status == CollectorOk && h.emptyReading && h.coercible {
          status := Empty;
        }
        var state := DeriveState(status, h.semantic, false);
        UpsertSourceTrust(Key(device, h.source), state, Weight(state), status, h.semantic, h.reason,
                          if status == CollectorOk then Some(receivedAt) else None);
      }
      assert health[..|health|] == health;
    }

    /** Rows changed are counted. */
    method ApplySourceStaleness(us: Updates) returns (applied: nat)
      modifies this
      ensures t == Applied(old(t), us)
      ensures applied == |Hits(old(t), us, us.Keys)|
    {
      hide AppliedFor;
      hide Hits;
      applied := 0;
      var left := us.Keys;
      NoUpdates(t, us);
      assert us.Keys - left == {};
      while left != {}
        invariant left <= us.Keys
        invariant t == AppliedFor(old(t), us, us.Keys - left) && applied == |Hits(old(t), us, us.Keys - left)|
        decreases left
      {
        var k :| k in left;
        OneMoreUpdate(old(t), us, us.Keys - left, k);
        assert us.Keys - left + {k} == us.Keys - (left - {k});
        if Matches(t, k, us[k]) {
          t := t[k := Written(t[k], us[k])];
          applied := applied + 1;
        }
        left := left - {k};
      }
      assert us.Keys - left == us.Keys;
    }

    method ReevaluateStaleness(now: int, staleAfter: int, ages: string -> bool, reason: string) returns (us: Updates)
      ensures us == Reevaluated(t, now, Floor(staleAfter), ages, reason)
    {
      us := map[];
      var left := t.Keys;
      while left != {}
        invariant left <= t.Keys
        invariant us == map k | k in t && k !in left && Changes(k, t[k], now, Floor(staleAfter), ages)
                          :: UpdateOf(t[k], now, Floor(staleAfter), reason)
        decreases left
      {
        var k :| k in left;
        var r := t[k];
        if ages(k.source) && r.evidence.Some? {
          var state := DeriveState(r.collector, r.semantic, now - r.evidence.value > Floor(staleAfter));
          if state != r.state {
            us := us[k := Update(state, Weight(state), reason, r.evidence)];
          }
        }
        left := left - {k};
      }
    }
  }

  lemma NoUpdates(t: Table, us: Updates)
    ensures AppliedFor(t, us, {}) == t && Hits(t, us, {}) == {}
  {}

  // ---- interleavings ----

  /** The table, sweeps between their read and their write, the clock of the last read, and for each source the
      receipt of its last evidence-bearing ingest. */
  datatype World = World(t: Table, sweeps: seq<Updates>, now: int, last: map<Key, int>)

  function Start(now: int): World {
    World(map[], [], now, map[])
  }

  /** Each read has its own setting, which may change between sweeps. A receipt may be of any time. */
  datatype Step =
    | Ingest(device: string, health: Health, receivedAt: int)
    | Read(now: int, staleAfter: int, reason: string)
    | Write(i: nat)

  predicate Enabled(w: World, a: Step) {
    match a
    case Ingest(_, _, _) => true
    case Read(now, _, _) => w.now <= now
    case Write(i) => i < |w.sweeps|
  }

  function After(w: World, a: Step, ages: string -> bool): World
    requires Enabled(w, a)
  {
    match a
    case Ingest(device, h, receivedAt) =>
      w.(t := Ingested(w.t, device, h, receivedAt),
         last := if h.known && HasEvidence(h) then w.last[Key(device, h.source) := receivedAt] else w.last)
    case Read(now, staleAfter, reason) =>
      w.(sweeps := w.sweeps + [Reevaluated(w.t, now, Floor(staleAfter), ages, reason)], now := now)
    case Write(i) =>
      w.(t := Applied(w.t, w.sweeps[i]), sweeps := w.sweeps[..i] + w.sweeps[i + 1..])
  }

  ghost predicate IsRun(w: World, steps: seq<Step>, ages: string -> bool)
    decreases |steps|
  {
    steps == [] || (Enabled(w, steps[0]) && IsRun(After(w, steps[0], ages), steps[1..], ages))
  }

  ghost function Final(w: World, steps: seq<Step>, ages: string -> bool): World
    requires IsRun(w, steps, ages)
    decreases |steps|
  {
    if steps == [] then w else Final(After(w, steps[0], ages), steps[1..], ages)
  }

  /** The clock column is the receipt of the last evidence-bearing ingest, and nothing else. */
  ghost predicate ClockIsEvidence(w: World) {
    && (forall k :: k in w.t ==> w.t[k].evidence == if k in w.last then Some(w.last[k]) else None)
    && forall k :: k in w.last ==> k in w.t
  }

  /** The weight goes with the state, and a weight above zero is what the last ingest earned. */
  predicate IsEarned(r: Row) {
    && r.weight == Weight(r.state)
    && (r.weight > 0 ==> r.state == DeriveState(r.collector, r.semantic, false))
  }

  ghost predicate Earned(w: World) {
    forall k :: k in w.t ==> IsEarned(w.t[k])
  }

  /** Beyond that, only evidence that is over age reads otherwise than its ingest left it. */
  ghost predicate RowOk(w: World, r: Row, threshold: int) {
    && IsEarned(r)
    && (r.state != DeriveState(r.collector, r.semantic, false) ==> Aged(r.evidence, w.now, threshold))
  }

  ghost predicate UpdateOk(w: World, u: Update, threshold: int) {
    u.weight == Weight(u.state) == 0 && Aged(u.evidence, w.now, threshold)
  }

  ghost predicate Safe(w: World, threshold: int) {
    && (forall k :: k in w.t ==> RowOk(w, w.t[k], threshold))
    && forall us, k :: us in w.sweeps && k in us ==> UpdateOk(w, us[k], threshold)
  }

  lemma StepKeepsClock(w: World, a: Step, ages: string -> bool)
    requires ClockIsEvidence(w) && Enabled(w, a)
    ensures ClockIsEvidence(After(w, a, ages))
  {}

  lemma LowerIsSafe(w: World, high: int, low: int)
    requires Safe(w, high) && low <= high
    ensures Safe(w, low)
  {
    forall k | k in w.t ensures RowOk(w, w.t[k], low) {
      assert RowOk(w, w.t[k], high);
    }
    forall us, k | us in w.sweeps && k in us ensures UpdateOk(w, us[k], low) {
      assert UpdateOk(w, us[k], high);
    }
  }

  lemma ReadIsSafe(w: World, now: int, staleAfter: int, ages: string -> bool, reason: string)
    requires Safe(w, Floor(staleAfter)) && w.now <= now
    ensures Safe(After(w, Read(now, staleAfter, reason), ages), Floor(staleAfter))
  {
    var threshold := Floor(staleAfter);
    var us := Reevaluated(w.t, now, threshold, ages, reason);
    var w' := After(w, Read(now, staleAfter, reason), ages);
    forall k | k in us
      ensures UpdateOk(w', us[k], threshold)
    {
      assert RowOk(w, w.t[k], threshold);
    }
    forall k | k in w.t
      ensures RowOk(w', w.t[k], threshold)
    {
      assert RowOk(w, w.t[k], threshold);
    }
    forall vs, k | vs in w'.sweeps && k in vs
      ensures UpdateOk(w', vs[k], threshold)
    {
      assert vs in w.sweeps || vs == us;
      if vs in w.sweeps {
        assert UpdateOk(w, vs[k], threshold);
      }
    }
  }

  lemma WriteIsSafe(w: World, i: nat, threshold: int, ages: string -> bool)
    requires Safe(w, threshold) && i < |w.sweeps|
    ensures Safe(After(w, Write(i), ages), threshold)
  {
    var w' := After(w, Write(i), ages);
    forall k | k in w'.t
      ensures RowOk(w', w'.t[k], threshold)
    {
      assert RowOk(w, w.t[k], threshold);
      assert w.sweeps[i] in w.sweeps;
      if k in w.sweeps[i] {
        assert UpdateOk(w, w.sweeps[i][k], threshold);
      }
    }
    forall us, k | us in w'.sweeps && k in us
      ensures UpdateOk(w', us[k], threshold)
    {
      assert us in w.sweeps;
      assert UpdateOk(w, us[k], threshold);
    }
  }

  lemma IngestIsSafe(w: World, device: string, h: Health, receivedAt: int, threshold: int, ages: string -> bool)
    requires Safe(w, threshold)
    ensures Safe(After(w, Ingest(device, h, receivedAt), ages), threshold)
  {
    var w' := After(w, Ingest(device, h, receivedAt), ages);
    forall k | k in w'.t
      ensures RowOk(w', w'.t[k], threshold)
    {
      if k in w.t {
        assert RowOk(w, w.t[k], threshold);
      }
    }
    forall us, k | us in w'.sweeps && k in us
      ensures UpdateOk(w', us[k], threshold)
    {
      assert UpdateOk(w, us[k], threshold);
    }
  }

  // ---- thresholds over a run ----

  /** The settings of the reads, in order. */
  function Settings(steps: seq<Step>): seq<int> {
    if steps == [] then []
    else (if steps[0].Read? then [steps[0].staleAfter] else []) + Settings(steps[1..])
  }

  /** No threshold, floored as the sweep does it, is above the one before it, nor the first above `high`. */
  predicate FallFrom(high: int, ts: seq<int>)
    decreases |ts|
  {
    ts == [] || (Floor(ts[0]) <= high && FallFrom(Floor(ts[0]), ts[1..]))
  }

  predicate NeverRise(ts: seq<int>) {
    ts == [] || FallFrom(Floor(ts[0]), ts[1..])
  }

  lemma {:induction false} FallingIsSafe(w: World, steps: seq<Step>, high: int, ages: string -> bool)
    requires Safe(w, high) && ClockIsEvidence(w) && IsRun(w, steps, ages) && FallFrom(high, Settings(steps))
    ensures ClockIsEvidence(Final(w, steps, ages)) && Earned(Final(w, steps, ages))
    decreases |steps|
  {
    hide ClockIsEvidence, After;
    if steps == [] {
      SafeIsEarned(w, high);
    } else {
      var a := steps[0];
      StepKeepsClock(w, a, ages);
      match a
      case Ingest(device, h, receivedAt) =>
        IngestIsSafe(w, device, h, receivedAt, high, ages);
        PlusEmpty(Settings(steps[1..]));
        FallingIsSafe(After(w, a, ages), steps[1..], high, ages);
      case Write(i) =>
        WriteIsSafe(w, i, high, ages);
        PlusEmpty(Settings(steps[1..]));
        FallingIsSafe(After(w, a, ages), steps[1..], high, ages);
      case Read(now, staleAfter, reason) =>
        ConsTail(staleAfter, Settings(steps[1..]));
        LowerIsSafe(w, high, Floor(staleAfter));
        ReadIsSafe(w, now, staleAfter, ages, reason);
        FallingIsSafe(After(w, a, ages), steps[1..], Floor(staleAfter), ages);
    }
  }

  lemma SafeIsEarned(w: World, threshold: int)
    requires Safe(w, threshold)
    ensures Earned(w)
  {
    forall k | k in w.t ensures IsEarned(w.t[k]) {
      assert RowOk(w, w.t[k], threshold);
    }
  }

  lemma {:induction false} ClockOfRun(w: World, steps: seq<Step>, ages: string -> bool)
    requires ClockIsEvidence(w) && IsRun(w, steps, ages)
    ensures ClockIsEvidence(Final(w, steps, ages))
    decreases |steps|
  {
    hide ClockIsEvidence, After;
    if steps == [] {
    } else {
      StepKeepsClock(w, steps[0], ages);
      ClockOfRun(After(w, steps[0], ages), steps[1..], ages);
    }
  }

  /** Over every interleaving of ingests, sweep reads and sweep writes, whatever the thresholds: the clock of a
      source is the receipt of its last evidence-bearing ingest, which no sweep moves. */
  lemma ClockIsLastEvidence(now: int, steps: seq<Step>, ages: string -> bool)
    requires IsRun(Start(now), steps, ages)
    ensures ClockIsEvidence(Final(Start(now), steps, ages))
  {
    ClockOfRun(Start(now), steps, ages);
  }

  /** No interleaving leaves a source with a weight that its last ingest did not earn. */
  ghost predicate AlwaysEarned(ts: seq<int>, ages: string -> bool) {
    forall now: int, steps: seq<Step> :: IsRun(Start(now), steps, ages) && Settings(steps) == ts
      ==> Earned(Final(Start(now), steps, ages))
  }

  /** That holds of exactly the settings whose threshold, sixty seconds at least, never rises from one sweep to the
      next. */
  lemma EarnedIffThresholdNeverRises(ts: seq<int>, ages: string -> bool, k: Key)
    requires ages(k.source)
    ensures AlwaysEarned(ts, ages) <==> NeverRise(ts)
  {
    if NeverRise(ts) {
      forall now: int, steps: seq<Step> | IsRun(Start(now), steps, ages) && Settings(steps) == ts
        ensures Earned(Final(Start(now), steps, ages))
      {
        FallingIsSafe(Start(now), steps, if ts == [] then 0 else Floor(ts[0]), ages);
      }
    } else {
      var i := FirstRise(ts);
      assert ts == ts[..i] + ([ts[i], ts[i + 1]] + ts[i + 2..]);
      var steps := RiseRevives(ts[..i], ts[i], ts[i + 1], ts[i + 2..], ages, k);
    }
  }

  lemma {:induction false} FirstRise(ts: seq<int>) returns (i: nat)
    requires !NeverRise(ts)
    ensures i + 1 < |ts| && Floor(ts[i]) < Floor(ts[i + 1])
  {
    if Floor(ts[0]) < Floor(ts[1]) {
      i := 0;
    } else {
      i := FirstRise(ts[1..]);
      i := i + 1;
    }
  }

  // ---- a rise revives a failed source ----

  function Reads(ts: seq<int>): seq<Step> {
    if ts == [] then [] else [Read(0, ts[0], "")] + Reads(ts[1..])
  }

  lemma {:induction false} SettingsPlus(a: seq<Step>, b: seq<Step>)
    ensures Settings(a + b) == Settings(a) + Settings(b)
  {
    if a == [] {
      PlusEmpty(b);
      PlusEmpty(Settings(b));
    } else {
      TailOfPlus(a, b);
      SettingsPlus(a[1..], b);
      PlusIsAssociative(if a[0].Read? then [a[0].staleAfter] else [], Settings(a[1..]), Settings(b));
    }
  }

  lemma {:induction false} RunPlus(w: World, a: seq<Step>, b: seq<Step>, ages: string -> bool)
    requires IsRun(w, a, ages) && IsRun(Final(w, a, ages), b, ages)
    ensures IsRun(w, a + b, ages) && Final(w, a + b, ages) == Final(Final(w, a, ages), b, ages)
    decreases |a|
  {
    hide After, Enabled;
    if a == [] {
      PlusEmpty(b);
    } else {
      TailOfPlus(a, b);
      RunPlus(After(w, a[0], ages), a[1..], b, ages);
    }
  }

  /** Reads only add pending sweeps. */
  lemma {:induction false} ReadsRun(w: World, ts: seq<int>, ages: string -> bool)
    requires w.now == 0
    ensures IsRun(w, Reads(ts), ages) && Settings(Reads(ts)) == ts
    ensures var w' := Final(w, Reads(ts), ages);
      w'.t == w.t && w'.now == 0 && |w'.sweeps| == |w.sweeps| + |ts| && w'.last == w.last
    decreases |ts|
  {
    if ts == [] {
    } else {
      ConsTail(Read(0, ts[0], ""), Reads(ts[1..]));
      var w' := After(w, Read(0, ts[0], ""), ages);
      ReadsRun(w', ts[1..], ages);
      HeadPlusTail(ts);
    }
  }

  lemma OneStep(w: World, a: Step, ages: string -> bool)
    requires Enabled(w, a)
    ensures IsRun(w, [a], ages) && Final(w, [a], ages) == After(w, a, ages)
    ensures Settings([a]) == if a.Read? then [a.staleAfter] else []
  {
    assert [a][1..] == [];
    PlusEmpty(if a.Read? then [a.staleAfter] else []);
  }

  /** From an empty table, with any settings before and after a rise from `low` to `high`: fresh evidence, a sweep
      that finds it over age by the low threshold and writes "stale", a sweep that finds it fresh again by the high
      one, an ingest that reports a timeout, and then that sweep's write, which puts the failed source back to full
      weight. */
  lemma RiseRevives(before: seq<int>, low: int, high: int, after: seq<int>, ages: string -> bool, k: Key)
    returns (steps: seq<Step>)
    requires ages(k.source) && Floor(low) < Floor(high)
    ensures IsRun(Start(0), steps, ages) && Settings(steps) == before + ([low, high] + after)
    ensures var t := Final(Start(0), steps, ages).t;
      k in t && t[k].collector == Timeout && t[k].state == Ok && t[k].weight == 10 && !IsEarned(t[k])
    ensures !Earned(Final(Start(0), steps, ages))
  {
    var w0 := Start(0);
    ReadsRun(w0, before, ages);
    var w1 := Final(w0, Reads(before), ages);
    var mid := RiseSteps(w1, low, high, ages, k);
    var w2 := Final(w1, mid, ages);
    ReadsRun(w2, after, ages);
    RunPlus(w1, mid, Reads(after), ages);
    RunPlus(w0, Reads(before), mid + Reads(after), ages);
    SettingsPlus(mid, Reads(after));
    SettingsPlus(Reads(before), mid + Reads(after));
    steps := Reads(before) + (mid + Reads(after));
    assert k in Final(w0, steps, ages).t && !IsEarned(Final(w0, steps, ages).t[k]);
  }

  lemma RiseSteps(w: World, low: int, high: int, ages: string -> bool, k: Key) returns (steps: seq<Step>)
    requires ages(k.source) && Floor(low) < Floor(high) && w.t == map[] && w.now == 0
    ensures IsRun(w, steps, ages) && Settings(steps) == [low, high]
    ensures var w' := Final(w, steps, ages);
      w'.now == 0 && k in w'.t && w'.t[k].collector == Timeout && w'.t[k].state == Ok && w'.t[k].weight == 10
          && !IsEarned(w'.t[k])
  {
    var n := |w.sweeps|;
    var good := Health(k.source, CollectorOk, false, Plausible, "", true, true);
    var bad := Health(k.source, Timeout, true, Plausible, "", true, true);
    var a, b, c := Ingest(k.device, good, -Floor(high)), Read(0, low, ""), Write(n);
    var d, e := Read(0, high, ""), Ingest(k.device, bad, 0);
    hide After, Reevaluated, Applied, Ingested;
    var e0 := Some(-Floor(high));
    var w1 := OneRowIngest(w, k, good, -Floor(high), ages);
    var w2 := OneRowRead(w1, k, Row(Ok, 10, CollectorOk, Plausible, "", e0), low, ages);
    var w3 := OneRowWrite(w2, k, Row(Ok, 10, CollectorOk, Plausible, "", e0), w.sweeps, Update(Stale, 0, "", e0), ages);
    var w4 := OneRowRead(w3, k, Row(Stale, 0, CollectorOk, Plausible, "", e0), high, ages);
    var w5 := OneRowIngest(w4, k, bad, 0, ages);
    var w6 := OneRowWrite(w5, k, Row(Unavailable, 0, Timeout, Plausible, "", e0), w.sweeps, Update(Ok, 10, "", e0),
                          ages);
    SixSteps(w, a, b, c, d, e, ages, w1, w2, w3, w4, w5, w6);
    steps := [a] + ([b] + ([c] + ([d] + ([e] + [c]))));
  }

  lemma OneRowIngest(w: World, k: Key, h: Health, receivedAt: int, ages: string -> bool) returns (w': World)
    requires w.t.Keys <= {k} && h.source == k.source && h.known
    ensures w' == After(w, Ingest(k.device, h, receivedAt), ages) && w'.now == w.now && w'.sweeps == w.sweeps
    ensures var state := DeriveState(Coerced(h), h.semantic, false);
      w'.t == map[k := Row(state, Weight(state), Coerced(h), h.semantic, h.reason,
                           if HasEvidence(h) then Some(receivedAt) else if k in w.t then w.t[k].evidence else None)]
  {
    w' := After(w, Ingest(k.device, h, receivedAt), ages);
    assert Key(k.device, h.source) == k;
  }

  lemma OneRowRead(w: World, k: Key, r: Row, staleAfter: int, ages: string -> bool) returns (w': World)
    requires w.t == map[k := r] && w.now == 0 && Changes(k, r, 0, Floor(staleAfter), ages)
    ensures w' == After(w, Read(0, staleAfter, ""), ages) && w'.now == 0 && w'.t == w.t
    ensures w'.sweeps == w.sweeps + [map[k := UpdateOf(r, 0, Floor(staleAfter), "")]]
  {
    w' := After(w, Read(0, staleAfter, ""), ages);
    assert Reevaluated(w.t, 0, Floor(staleAfter), ages, "") == map[k := UpdateOf(r, 0, Floor(staleAfter), "")];
  }

  lemma OneRowWrite(w: World, k: Key, r: Row, sweeps: seq<Updates>, u: Update, ages: string -> bool) returns (w': World)
    requires w.t == map[k := r] && w.sweeps == sweeps + [map[k := u]] && u.evidence == r.evidence
    ensures w' == After(w, Write(|sweeps|), ages) && w'.now == w.now && w'.sweeps == sweeps
    ensures w'.t == map[k := Written(r, u)]
  {
    w' := After(w, Write(|sweeps|), ages);
    assert w.sweeps[|sweeps|] == map[k := u];
    assert Matches(w.t, k, u);
    assert w.sweeps[..|sweeps|] == sweeps && w.sweeps[|sweeps| + 1..] == [];
  }

  lemma SixSteps(w: World, a: Step, b: Step, c: Step, d: Step, e: Step, ages: string -> bool,
                 w1: World, w2: World, w3: World, w4: World, w5: World, w6: World)
    requires Enabled(w, a) && w1 == After(w, a, ages) && Enabled(w1, b) && w2 == After(w1, b, ages)
    requires Enabled(w2, c) && w3 == After(w2, c, ages) && Enabled(w3, d) && w4 == After(w3, d, ages)
    requires Enabled(w4, e) && w5 == After(w4, e, ages) && Enabled(w5, c) && w6 == After(w5, c, ages)
    requires a.Ingest? && b.Read? && c.Write? && d.Read? && e.Ingest?
    ensures var steps := [a] + ([b] + ([c] + ([d] + ([e] + [c]))));
      IsRun(w, steps, ages) && Final(w, steps, ages) == w6 && Settings(steps) == [b.staleAfter, d.staleAfter]
  {
    hide After, Enabled;
    OneStep(w5, c, ages);
    OneStep(w4, e, ages);
    OneStep(w3, d, ages);
    OneStep(w2, c, ages);
    OneStep(w1, b, ages);
    OneStep(w, a, ages);
    RunPlus(w4, [e], [c], ages);
    RunPlus(w3, [d], [e] + [c], ages);
    RunPlus(w2, [c], [d] + ([e] + [c]), ages);
    RunPlus(w1, [b], [c] + ([d] + ([e] + [c])), ages);
    RunPlus(w, [a], [b] + ([c] + ([d] + ([e] + [c]))), ages);
    SettingsPlus([e], [c]);
    SettingsPlus([d], [e] + [c]);
    SettingsPlus([c], [d] + ([e] + [c]));
    SettingsPlus([b], [c] + ([d] + ([e] + [c])));
    SettingsPlus([a], [b] + ([c] + ([d] + ([e] + [c]))));
  }

  // ---- the fence ----

  /** Between a read and its write, steps that carry no evidence for this source. */
  ghost predicate Quiet(k: Key, a: Step) {
    a.Ingest? ==> Key(a.device, a.health.source) != k || !a.health.known || !HasEvidence(a.health)
  }

  ghost predicate AllQuiet(k: Key, steps: seq<Step>) {
    forall a :: a in steps ==> Quiet(k, a)
  }

  /** Evidence stored in between carries another receipt time than `e`. */
  ghost predicate OtherReceipts(k: Key, steps: seq<Step>, e: Option<int>) {
    forall a :: a in steps && !Quiet(k, a) ==> Some(a.receivedAt) != e
  }

  lemma StepAndClock(w: World, a: Step, k: Key, ages: string -> bool)
    requires Enabled(w, a) && k in w.t
    ensures var w' := After(w, a, ages);
      && k in w'.t
      && w'.t[k].evidence == if Quiet(k, a) then w.t[k].evidence else Some(a.receivedAt)
  {}

  lemma {:induction false} ClockBetween(w: World, steps: seq<Step>, k: Key, e: Option<int>, ages: string -> bool)
    requires IsRun(w, steps, ages) && k in w.t && OtherReceipts(k, steps, e)
    ensures k in Final(w, steps, ages).t
    ensures Final(w, steps, ages).t[k].evidence == e <==> w.t[k].evidence == e && AllQuiet(k, steps)
    decreases |steps|
  {
    hide After, Quiet;
    if steps == [] {
    } else {
      assert steps[0] in steps && forall a :: a in steps <==> a == steps[0] || a in steps[1..];
      StepAndClock(w, steps[0], k, ages);
      ClockBetween(After(w, steps[0], ages), steps[1..], k, e, ages);
    }
  }

  /** A sweep's write for a source takes effect if and only if no evidence for that source was stored since the read,
      provided that evidence carries another receipt time than the one read. */
  lemma FenceIsExact(w: World, steps: seq<Step>, k: Key, us: Updates, now: int, threshold: int, ages: string -> bool,
                     reason: string)
    requires us == Reevaluated(w.t, now, threshold, ages, reason) && k in us
    requires IsRun(w, steps, ages) && OtherReceipts(k, steps, w.t[k].evidence)
    ensures var t := Final(w, steps, ages).t;
      && k in t
      && (Matches(t, k, us[k]) <==> AllQuiet(k, steps))
      && Applied(t, us)[k] == if AllQuiet(k, steps) then Written(t[k], us[k]) else t[k]
  {
    ClockBetween(w, steps, k, w.t[k].evidence, ages);
  }

  /** An ingest without evidence leaves the clock alone, so it does not fence: a sweep that read an old row writes its
      verdict over the newer one. */
  lemma NoEvidenceNoFence(t: Table, device: string, h: Health, receivedAt: int, now: int, threshold: int,
                          ages: string -> bool, reason: string)
    requires h.known && !HasEvidence(h)
    requires var k := Key(device, h.source); k in t && Changes(k, t[k], now, threshold, ages)
    ensures var k := Key(device, h.source);
      var us := Reevaluated(t, now, threshold, ages, reason);
      Applied(Ingested(t, device, h, receivedAt), us)[k].state == us[k].state
  {}

  /** Nor does evidence stored in the very instant of the evidence that was read: the source has just reported and is
      marked stale. */
  lemma SameInstantNoFence(t: Table, device: string, h: Health, now: int, threshold: int, ages: string -> bool,
                           reason: string)
    requires h.known && HasEvidence(h)
    requires var k := Key(device, h.source);
      && k in t && t[k].evidence.Some? && Changes(k, t[k], now, threshold, ages)
    ensures var k := Key(device, h.source);
      var us := Reevaluated(t, now, threshold, ages, reason);
      Applied(Ingested(t, device, h, t[k].evidence.value), us)[k].state == us[k].state
  {}
}
