/** server/analytics/health.py: the verdict with hysteresis, and its feedback through the stored
    history (server/pipeline.py). Scores are integers in tenths, as the source rounds them; the two
    coordinates are taken as already assembled. */
module Health {
  import opened Wrappers

  const MATURE_POINTS := 6
  const FLAT_SLOPE := 0.01
  const MATERIAL_ETA_DAYS := 365.0
  const MATERIAL_DRIFT_30D := 0.10

  type Rank = r: nat | r <= 4

  datatype State = Unknown | H(rank: Rank)
  datatype Band = Good | Watch | Bad | NoBand

  datatype Flag =
    | PredictFail | CwSpare | CwReliability | CwReadonly | PendingGt10 | Uncorrectable198
    | SpareBelowThreshold | ChainStage3
    | Accel | ChainStage2 | Recurrence | AgingAccelerating
    | RemapMasking | SpareDepleting | TailRatioWorsening | EarlyEvents | AgingLeak
    | DamagePresent | RebootRestores | OtherFlag(name: string)

  const H4_FLAGS := {PredictFail, CwSpare, CwReliability, CwReadonly, PendingGt10, Uncorrectable198,
                     SpareBelowThreshold, ChainStage3}
  const H3_FLAGS := {Accel, ChainStage2, Recurrence, AgingAccelerating}
  const H2_FLAGS := {RemapMasking, SpareDepleting, TailRatioWorsening, EarlyEvents, AgingLeak}

  datatype TrendKey =
    | StorageWear | NvmeSpare | SmartPending | SmartRealloc | SmartMediaErrors | DiskTailRatio
    | DiskFill | BootTime | Throttle | GatewayLatency | OtherTrend(name: string)

  datatype Trend = Trend(nPoints: int, worsening: bool, slope: Option<real>, eta: Option<real>, current: Option<real>)

  datatype AxisName = StorageRisk | SoftwareAgingRisk | OsDegradationRisk | DiskFillRisk | NetworkRisk | TrajectoryRisk
  datatype Axis = Axis(known: bool, band: Band)

  type Trends = map<TrendKey, Trend>
  type Axes = map<AxisName, Axis>

  /** One recompute's evidence: damage (higher is worse), resilience and observability (higher is
      better), all in tenths of a point. */
  datatype Signals = Signals(d: Option<int>, r: Option<int>, o: int, flags: set<Flag>,
                             trends: Trends, axes: Axes, disk: Option<string>)

  function Abs(x: real): real {
    if x < 0.0 then -x else x
  }

  // ---- state ----

  function RawState(d: Option<int>, r: Option<int>, o: int, flags: set<Flag>): State {
    if o < 400 || d.None? then Unknown
    else if flags * H4_FLAGS != {} then H(4)
    else if flags * H3_FLAGS != {} || (r.Some? && r.value <= 300) then H(3)
    else if flags * H2_FLAGS != {} || (r.Some? && r.value <= 600) then H(2)
    else if d.value >= 150 || DamagePresent in flags then H(1)
    else H(0)
  }

  // ---- ratchet ----

  const FLAT_COUNTER_TRENDS := {SmartPending, SmartRealloc, SmartMediaErrors}

  predicate CountersFlat(trends: Trends) {
    && FLAT_COUNTER_TRENDS * trends.Keys != {}
    && forall k :: k in FLAT_COUNTER_TRENDS * trends.Keys ==>
         && trends[k].nPoints >= MATURE_POINTS
         && !trends[k].worsening
         && Abs(trends[k].slope.GetOr(0.0)) < FLAT_SLOPE
  }

  /** The health block of the last stored row. `state` is None when it holds no valid state. */
  datatype Stored = Stored(state: Option<State>, lastKnown: Option<Rank>, disk: Option<string>)

  function Ratchet(state: State, prev: Option<Stored>, flags: set<Flag>, trends: Trends, disk: Option<string>): State {
    if state.Unknown? || prev.None? then state
    else
      var p := prev.value;
      var was := if p.state == Some(Unknown) then p.lastKnown
                 else if p.state.Some? then Some(p.state.value.rank) else None;
      if was.None? || state.rank >= was.value then state
      else if disk.Some? && p.disk.Some? && disk != p.disk then state
      else if RebootRestores in flags || CountersFlat(trends) then H(was.value - 1)
      else H(was.value)
  }

  // ---- index and colour ----

  function RoundHalfEven(n: int, k: int): int
    requires k > 0
  {
    var q, rem := n / k, n % k;
    if 2 * rem < k || (2 * rem == k && q % 2 == 0) then q else q + 1
  }

  function Max(a: int, b: int): int {
    if a >= b then a else b
  }

  function Min(a: int, b: int): int {
    if a <= b then a else b
  }

  /** 0.7 of the larger loss plus 0.3 of the mean loss. */
  function Index(d: Option<int>, rloss: Option<int>, o: int): Option<int> {
    if o < 400 then None
    else match (d, rloss)
      case (None, None) => None
      case (Some(x), None) => Some(Max(0, Min(1000, 1000 - x)))
      case (None, Some(y)) => Some(Max(0, Min(1000, 1000 - y)))
      case (Some(x), Some(y)) =>
        Some(Max(0, Min(1000, 1000 - RoundHalfEven(14 * Max(x, y) + 3 * (x + y), 20))))
  }

  function BandForRisk(v: int): Band {
    if v < 150 then Good else if v < 400 then Watch else Bad
  }

  /** The colour, and whether the defensive clamp fired. */
  function Reconcile(state: State, index: Option<int>, o: int): (Band, bool) {
    if o < 400 || state.Unknown? then (NoBand, false)
    else
      var band := if index.Some? then BandForRisk(1000 - index.value) else NoBand;
      var adjusted := if state.rank == 4 then Bad
                      else if state.rank in {2, 3} && band == Good then Watch
                      else band;
      if state.rank == 0 && adjusted == Bad then (Watch, true) else (adjusted, false)
  }

  // ---- mechanisms ----

  datatype Mechanism = Storage | Filling | Os | Thermal | Network | Aging | OtherMechanism(name: string)

  function TrendMechanism(k: TrendKey): Mechanism {
    match k
    case StorageWear | NvmeSpare | SmartPending | SmartRealloc | SmartMediaErrors | DiskTailRatio => Storage
    case DiskFill => Filling
    case BootTime => Os
    case Throttle => Thermal
    case GatewayLatency => Network
    case OtherTrend(name) => OtherMechanism(name)
  }

  function AxisMechanism(a: AxisName): Mechanism {
    match a
    case StorageRisk | TrajectoryRisk => Storage
    case DiskFillRisk => Filling
    case OsDegradationRisk => Os
    case NetworkRisk => Network
    case SoftwareAgingRisk => Aging
  }

  predicate MaterialWorsening(k: TrendKey, t: Trend) {
    && t.worsening
    && if k in FLAT_COUNTER_TRENDS then true
       else if t.eta.Some? then t.eta.value <= MATERIAL_ETA_DAYS
       else if t.slope.None? || t.current.None? then false
       else t.current.value == 0.0 || Abs(t.slope.value) * 30.0 / Abs(t.current.value) >= MATERIAL_DRIFT_30D
  }

  function Mechanisms(axes: Axes, trends: Trends): set<Mechanism> {
    (set a | a in axes && axes[a].known && axes[a].band in {Watch, Bad} :: AxisMechanism(a))
    + (set k | k in trends && MaterialWorsening(k, trends[k]) :: TrendMechanism(k))
  }

  predicate IsSystemic(axes: Axes, trends: Trends) {
    |Mechanisms(axes, trends)| >= 3
  }

  // ---- horizon ----

  datatype Reason = NoReason | ByState(rank: Rank) | ByEta(days: int)

  function StateDays(state: State): Option<int> {
    match state
    case H(4) => Some(7)
    case H(3) => Some(30)
    case H(2) => Some(90)
    case _ => None
  }

  const DEPLETION_TRENDS := [NvmeSpare, DiskFill, StorageWear]

  function EtaOf(trends: Trends, k: TrendKey): Option<real> {
    if k in trends then trends[k].eta else None
  }

  function Bucket(eta: real): Option<int> {
    if eta <= 30.0 then Some(30) else if eta <= 90.0 then Some(90) else if eta <= 180.0 then Some(180) else None
  }

  ghost predicate IsMinEta(trends: Trends, keys: seq<TrendKey>, eta: real) {
    && (exists k :: k in keys && EtaOf(trends, k) == Some(eta))
    && (forall k :: k in keys && EtaOf(trends, k).Some? ==> eta <= EtaOf(trends, k).value)
  }

  /** The bucket of the soonest depletion. */
  ghost predicate IsEtaDays(trends: Trends, keys: seq<TrendKey>, days: Option<int>) {
    if exists eta :: IsMinEta(trends, keys, eta)
    then exists eta :: IsMinEta(trends, keys, eta) && days == Bucket(eta)
    else days == None
  }

  method Horizon(state: State, trends: Trends) returns (days: Option<int>, reason: Reason)
    ensures exists eta ::
      && IsEtaDays(trends, DEPLETION_TRENDS, eta)
      && (if StateDays(state).Some? && (eta.None? || StateDays(state).value <= eta.value)
          then days == StateDays(state) && reason == ByState(state.rank)
          else days == eta && reason == if eta.Some? then ByEta(eta.value) else NoReason)
  {
    var stateDays := StateDays(state);
    var etaDays: Option<int> := None;
    for i := 0 to |DEPLETION_TRENDS|
      invariant IsEtaDays(trends, DEPLETION_TRENDS[..i], etaDays)
    {
      var k := DEPLETION_TRENDS[i];
      var eta := EtaOf(trends, k);
      OneMoreEta(trends, DEPLETION_TRENDS[..i], k, etaDays);
      assert DEPLETION_TRENDS[..i] + [k] == DEPLETION_TRENDS[..i + 1];
      if eta.Some? {
        if eta.value <= 30.0 {
          etaDays := Some(Min(etaDays.GetOr(999), 30));
        } else if eta.value <= 90.0 {
          etaDays := Some(Min(etaDays.GetOr(999), 90));
        } else if eta.value <= 180.0 {
          etaDays := Some(Min(etaDays.GetOr(999), 180));
        }
      }
    }
    assert DEPLETION_TRENDS[..|DEPLETION_TRENDS|] == DEPLETION_TRENDS;
    if stateDays.Some? && (etaDays.None? || stateDays.value <= etaDays.value) {
      return stateDays, ByState(state.rank);
    }
    if etaDays.Some? {
      return etaDays, ByEta(etaDays.value);
    }
    return None, NoReason;
  }

  lemma MinEtaIsUnique(trends: Trends, keys: seq<TrendKey>, a: real, b: real)
    requires IsMinEta(trends, keys, a) && IsMinEta(trends, keys, b)
    ensures a == b
  {}

  lemma OneMoreEta(trends: Trends, keys: seq<TrendKey>, k: TrendKey, days: Option<int>)
    requires IsEtaDays(trends, keys, days)
    ensures var eta := EtaOf(trends, k);
      var days' := if eta.None? || Bucket(eta.value).None? then days
                   else Some(Min(days.GetOr(999), Bucket(eta.value).value));
      IsEtaDays(trends, keys + [k], days')
  {
    var eta := EtaOf(trends, k);
    var keys' := keys + [k];
    if least :| IsMinEta(trends, keys, least) {
      assert days == Bucket(least) by {
        var other :| IsMinEta(trends, keys, other) && days == Bucket(other);
        MinEtaIsUnique(trends, keys, least, other);
      }
      var least' := if eta.Some? && eta.value < least then eta.value else least;
      assert k in keys';
      assert IsMinEta(trends, keys', least');
    } else {
      assert forall j :: j in keys ==> EtaOf(trends, j).None? by { NoEtas(trends, keys); }
      if eta.Some? {
        assert k in keys';
        assert IsMinEta(trends, keys', eta.value);
      } else {
        assert forall j :: j in keys' ==> EtaOf(trends, j).None?;
      }
    }
  }

  lemma {:induction false} NoEtas(trends: Trends, keys: seq<TrendKey>)
    requires forall eta :: !IsMinEta(trends, keys, eta)
    ensures forall j :: j in keys ==> EtaOf(trends, j).None?
  {
    if j :| j in keys && EtaOf(trends, j).Some? {
      var eta := LeastEta(trends, keys, j);
    }
  }

  lemma {:induction false} LeastEta(trends: Trends, keys: seq<TrendKey>, j: TrendKey) returns (eta: real)
    requires j in keys && EtaOf(trends, j).Some?
    ensures IsMinEta(trends, keys, eta)
  {
    var tail := keys[1..];
    assert forall k :: k in keys <==> k == keys[0] || k in tail;
    var head := EtaOf(trends, keys[0]);
    if k :| k in tail && EtaOf(trends, k).Some? {
      eta := LeastEta(trends, tail, k);
      if head.Some? && head.value < eta {
        eta := head.value;
      }
    } else {
      eta := head.value;
    }
  }

  // ---- the verdict and its feedback ----

  datatype Verdict = Verdict(state: State, lastKnown: Option<Rank>, index: Option<int>, band: Band, clamped: bool,
                             systemic: bool)

  function RLoss(r: Option<int>): Option<int> {
    if r.None? then None else Some(1000 - r.value)
  }

  function ComputeHealth(i: Signals, prev: Option<Stored>): Verdict {
    var ratcheted := Ratchet(RawState(i.d, i.r, i.o, i.flags), prev, i.flags, i.trends, i.disk);
    var lastKnown := if ratcheted.H? then Some(ratcheted.rank)
                     else if prev.Some? then prev.value.lastKnown else None;
    var systemic := IsSystemic(i.axes, i.trends);
    var state := if systemic && ratcheted.H? && ratcheted.rank < 2 then H(2) else ratcheted;
    var index := Index(i.d, RLoss(i.r), i.o);
    var (band, clamped) := Reconcile(state, index, i.o);
    Verdict(state, lastKnown, index, band, clamped, systemic)
  }

  function Next(prev: Option<Stored>, i: Signals): Option<Stored> {
    var v := ComputeHealth(i, prev);
    Some(Stored(Some(v.state), v.lastKnown, i.disk))
  }

  function Run(prev: Option<Stored>, cycles: seq<Signals>): Option<Stored> {
    if cycles == [] then prev else Next(Run(prev, cycles[..|cycles| - 1]), cycles[|cycles| - 1])
  }

  // ---- the ratchet in closed form, and over runs ----

  predicate Evidence(i: Signals) {
    RebootRestores in i.flags || CountersFlat(i.trends)
  }

  predicate Replaced(prev: Option<Stored>, i: Signals) {
    prev.Some? && prev.value.disk.Some? && i.disk.Some? && prev.value.disk != i.disk
  }

  /** What the ratchet holds on to: the displayed state, or the last known one after a blind cycle. */
  function Held(prev: Option<Stored>): Option<Rank> {
    if prev.None? || prev.value.state.None? then None
    else if prev.value.state.value.Unknown? then prev.value.lastKnown
    else Some(prev.value.state.value.rank)
  }

  /** The branches amount to a maximum: never below the raw rank, and at most one step below the
      held rank, that only with evidence, unless the worst disk was replaced. */
  lemma RatchetIsMaximum(i: Signals, prev: Option<Stored>)
    ensures var raw := RawState(i.d, i.r, i.o, i.flags);
      var held := Held(prev);
      Ratchet(raw, prev, i.flags, i.trends, i.disk) ==
        if raw.Unknown? || held.None? || Replaced(prev, i) then raw
        else H(Max(raw.rank, Max(0, held.value - (if Evidence(i) then 1 else 0))))
  {}

  /** Stored verdicts: a known state carries a memory, which the systemic floor may exceed. */
  ghost predicate WellFormed(p: Option<Stored>) {
    p.Some? ==>
      && p.value.state.Some?
      && (p.value.state.value.H? ==> p.value.lastKnown.Some? && p.value.lastKnown.value <= p.value.state.value.rank)
  }

  function Memory(p: Option<Stored>): nat {
    if p.Some? && p.value.lastKnown.Some? then p.value.lastKnown.value else 0
  }

  function EvidenceCycles(cycles: seq<Signals>): nat {
    if cycles == [] then 0
    else EvidenceCycles(cycles[..|cycles| - 1]) + (if IsKnownEvidence(cycles[|cycles| - 1]) then 1 else 0)
  }

  predicate IsKnownEvidence(i: Signals) {
    RawState(i.d, i.r, i.o, i.flags).H? && Evidence(i)
  }

  /** The total of all drops of the remembered rank. */
  function Drops(prev: Option<Stored>, cycles: seq<Signals>): nat {
    if cycles == [] then 0
    else
      var before := Run(prev, cycles[..|cycles| - 1]);
      Drops(prev, cycles[..|cycles| - 1]) + Max(0, Memory(before) - Memory(Next(before, cycles[|cycles| - 1])))
  }

  predicate OneDisk(prev: Option<Stored>, cycles: seq<Signals>) {
    cycles == [] || (OneDisk(prev, cycles[..|cycles| - 1])
                     && !Replaced(Run(prev, cycles[..|cycles| - 1]), cycles[|cycles| - 1]))
  }

  lemma CycleKeepsMemory(prev: Option<Stored>, i: Signals)
    requires WellFormed(prev)
    ensures WellFormed(Next(prev, i))
    ensures !Replaced(prev, i) ==> Memory(prev) - Memory(Next(prev, i)) <= if IsKnownEvidence(i) then 1 else 0
    ensures RawState(i.d, i.r, i.o, i.flags).Unknown? ==> Memory(Next(prev, i)) == Memory(prev)
  {
    RatchetIsMaximum(i, prev);
  }

  /** Over any run that feeds each verdict back, blind cycles included: while no known worst disk gives
      way to another, the drops of the remembered rank add up to at most the number of
      evidence-bearing cycles, so from rank to rank takes that many of them. */
  lemma {:induction false} DropsNeedEvidence(prev: Option<Stored>, cycles: seq<Signals>)
    requires WellFormed(prev) && OneDisk(prev, cycles)
    ensures WellFormed(Run(prev, cycles))
    ensures Drops(prev, cycles) <= EvidenceCycles(cycles)
    ensures Memory(prev) - Memory(Run(prev, cycles)) <= EvidenceCycles(cycles)
  {
    if cycles == [] {
    } else {
      var n := |cycles| - 1;
      DropsNeedEvidence(prev, cycles[..n]);
      CycleKeepsMemory(Run(prev, cycles[..n]), cycles[n]);
    }
  }

  /** From a first verdict of h4, the remembered state reaches h0 on one disk only after at least four
      evidence-bearing cycles. */
  lemma FailingDiskNeedsFourSteps(first: Signals, cycles: seq<Signals>)
    requires RawState(first.d, first.r, first.o, first.flags) == H(4)
    requires OneDisk(Next(None, first), cycles)
    requires Run(Next(None, first), cycles).value.state == Some(H(0))
    ensures EvidenceCycles(cycles) >= 4
  {
    DropsNeedEvidence(Next(None, first), cycles);
  }

  /** And four are enough. */
  lemma FourStepsSuffice(first: Signals, calm: Signals)
    requires RawState(first.d, first.r, first.o, first.flags) == H(4)
    requires RawState(calm.d, calm.r, calm.o, calm.flags) == H(0) && Evidence(calm)
        && !IsSystemic(calm.axes, calm.trends)
    requires first.disk == calm.disk
    ensures OneDisk(Next(None, first), [calm, calm, calm, calm])
    ensures Run(Next(None, first), [calm, calm, calm, calm]).value.state == Some(H(0))
  {
    hide RawState, IsSystemic, Evidence, CountersFlat, Index, Reconcile;
    var p0 := Next(None, first);
    var p1 := Next(p0, calm);
    var p2 := Next(p1, calm);
    var p3 := Next(p2, calm);
    var p4 := Next(p3, calm);
    RatchetIsMaximum(first, None);
    RatchetIsMaximum(calm, p0);
    RatchetIsMaximum(calm, p1);
    RatchetIsMaximum(calm, p2);
    RatchetIsMaximum(calm, p3);
    RunOnce(p0, [], calm);
    RunOnce(p0, [calm], calm);
    RunOnce(p0, [calm, calm], calm);
    RunOnce(p0, [calm, calm, calm], calm);
    assert [] + [calm] == [calm] && [calm] + [calm] == [calm, calm] && [calm, calm] + [calm] == [calm, calm, calm];
    assert [calm, calm, calm] + [calm] == [calm, calm, calm, calm];
  }

  lemma RunOnce(prev: Option<Stored>, cycles: seq<Signals>, i: Signals)
    ensures Run(prev, cycles + [i]) == Next(Run(prev, cycles), i)
    ensures OneDisk(prev, cycles + [i]) <==> OneDisk(prev, cycles) && !Replaced(Run(prev, cycles), i)
  {
    assert (cycles + [i])[..|cycles|] == cycles;
  }

  lemma FinalNotBelowRaw(i: Signals, prev: Option<Stored>)
    ensures var raw := RawState(i.d, i.r, i.o, i.flags);
      var v := ComputeHealth(i, prev);
      && (v.state.Unknown? <==> raw.Unknown?)
      && (raw.H? ==>
            v.state.rank >= raw.rank && v.lastKnown == Some(v.lastKnown.value) && v.state.rank >= v.lastKnown.value)
      && (raw.H? && v.systemic ==> v.state.rank >= 2)
  {
    RatchetIsMaximum(i, prev);
  }

  lemma {:induction false} BlindRunKeepsMemory(prev: Option<Stored>, blind: seq<Signals>)
    requires WellFormed(prev) && prev.Some?
    requires forall i :: i in blind ==> RawState(i.d, i.r, i.o, i.flags).Unknown?
    ensures var p := Run(prev, blind);
      p.Some? && p.value.lastKnown == prev.value.lastKnown && (blind != [] ==> p.value.state == Some(Unknown))
  {
    if blind == [] {
    } else {
      var n := |blind| - 1;
      BlindRunKeepsMemory(prev, blind[..n]);
      assert blind[n] in blind;
    }
  }

  /** The memory is taken before the systemic floor. After any number of blind cycles a calm verdict
      therefore shows the larger of the raw rank and the memory. Without evidence the displayed
      rank then holds if and only if the raw rank carries it or no floor had raised it. */
  lemma BlindCyclesForgetTheFloor(prev: Option<Stored>, blind: seq<Signals>, calm: Signals)
    requires WellFormed(prev) && prev.Some? && prev.value.state.value.H?
    requires blind != [] && forall i :: i in blind ==> RawState(i.d, i.r, i.o, i.flags).Unknown?
    requires RawState(calm.d, calm.r, calm.o, calm.flags).H?
    requires !IsSystemic(calm.axes, calm.trends) && !Evidence(calm) && !Replaced(Run(prev, blind), calm)
    ensures var raw := RawState(calm.d, calm.r, calm.o, calm.flags).rank;
      var shown, memory := prev.value.state.value.rank, prev.value.lastKnown.value;
      var v := ComputeHealth(calm, Run(prev, blind));
      && v.state == H(Max(raw, memory))
      && (v.state.rank >= shown <==> raw >= shown || memory == shown)
  {
    BlindRunKeepsMemory(prev, blind);
    RatchetIsMaximum(calm, Run(prev, blind));
  }

  /** So a state that only the floor raised falls from h2 to h0 over one blind cycle. */
  lemma FloorFallsTwoRanks(floored: Signals, blind: Signals, calm: Signals)
    requires RawState(floored.d, floored.r, floored.o, floored.flags) == H(0)
        && IsSystemic(floored.axes, floored.trends)
    requires RawState(blind.d, blind.r, blind.o, blind.flags) == Unknown
    requires RawState(calm.d, calm.r, calm.o, calm.flags) == H(0) && !IsSystemic(calm.axes, calm.trends)
        && !Evidence(calm)
    ensures var one := Next(None, floored);
      && one.value.state == Some(H(2))
      && ComputeHealth(calm, Next(one, blind)).state == H(0)
      && (!Replaced(one, calm) ==> ComputeHealth(calm, one).state == H(2))
  {
    RatchetIsMaximum(calm, Next(None, floored));
    RatchetIsMaximum(calm, Next(Next(None, floored), blind));
  }

  // ---- state, index and colour agree ----

  lemma LossBetween(x: int, y: int)
    ensures var loss := RoundHalfEven(14 * Max(x, y) + 3 * (x + y), 20);
      loss <= Max(x, y) && x + y <= 2 * loss + 1
  {}

  /** The index lies between 100 minus the larger loss and 100 minus the mean loss, up to rounding. */
  lemma IndexBetweenMaxAndMean(x: int, y: int, o: int)
    requires 0 <= x <= 1000 && 0 <= y <= 1000 && o >= 400
    ensures var i := Index(Some(x), Some(y), o);
      i.Some? && 1000 - Max(x, y) <= i.value && 2 * i.value <= 2000 - (x + y) + 1
  {
    LossBetween(x, y);
  }

  lemma RoundingIsMonotone(n: int, m: int)
    requires n <= m
    ensures RoundHalfEven(n, 20) <= RoundHalfEven(m, 20)
  {
    assert n / 20 == m / 20 ==> n % 20 <= m % 20;
  }

  /** More damage or less resilience never improves the raw rank or the index. */
  lemma WorseSignalsNeverImprove(d: int, d': int, r: int, r': int, o: int, flags: set<Flag>)
    requires d <= d' && r' <= r && o >= 400
    ensures RawState(Some(d), Some(r), o, flags).rank <= RawState(Some(d'), Some(r'), o, flags).rank
    ensures Index(Some(d), RLoss(Some(r)), o).value >= Index(Some(d'), RLoss(Some(r')), o).value
  {
    RoundingIsMonotone(14 * Max(d, 1000 - r) + 3 * (d + 1000 - r), 14 * Max(d', 1000 - r') + 3 * (d' + 1000 - r'));
  }

  /** For every verdict, whatever was stored before it: the defensive clamp never fires, h0 is never
      bad, h4 always is, h2 and h3 are never good, and only an unknown state has no colour. */
  lemma ColourAgreesWithState(i: Signals, prev: Option<Stored>)
    ensures var v := ComputeHealth(i, prev);
      && !v.clamped
      && (v.state == H(0) ==> v.band in {Good, Watch})
      && (v.state == H(4) ==> v.band == Bad)
      && (v.state in {H(2), H(3)} ==> v.band in {Watch, Bad})
      && (v.band == NoBand <==> v.state == Unknown)
  {
    FinalNotBelowRaw(i, prev);
    var v := ComputeHealth(i, prev);
    if v.state == H(0) && i.r.Some? {
      LossBetween(i.d.value, 1000 - i.r.value);
    }
  }

  /** Storage axes and storage trends alone are one mechanism, never a systemic cause. */
  lemma StorageAloneIsNotSystemic(axes: Axes, trends: Trends)
    requires forall a :: a in axes && axes[a].known && axes[a].band in {Watch, Bad} ==> AxisMechanism(a) == Storage
    requires forall k :: k in trends && MaterialWorsening(k, trends[k]) ==> TrendMechanism(k) == Storage
    ensures !IsSystemic(axes, trends)
  {
    var m := Mechanisms(axes, trends);
    assert m <= {Storage};
    CardOfSubset(m, {Storage});
  }

  lemma CardOfSubset<T>(a: set<T>, b: set<T>)
    requires a <= b
    ensures |a| <= |b|
  {
    if x :| x in a {
      CardOfSubset(a - {x}, b - {x});
    }
  }

  lemma ThreeAxesAreSystemic(axes: Axes, trends: Trends)
    requires forall a ::
               a in {OsDegradationRisk, NetworkRisk, SoftwareAgingRisk} ==> a in axes && axes[a] == Axis(true, Bad)
    ensures IsSystemic(axes, trends)
  {
    assert OsDegradationRisk in axes && NetworkRisk in axes && SoftwareAgingRisk in axes;
    assert {Os, Network, Aging} <= Mechanisms(axes, trends);
    CardOfSubset({Os, Network, Aging}, Mechanisms(axes, trends));
    assert |{Os, Network, Aging}| == 3;
  }

  /** Three unrelated axes lift a healthy device to h2, while its memory stays at h0. */
  lemma ThreeAxesLiftHealthy(o: int)
    requires o >= 400
    ensures var axis := Axis(true, Bad);
      var axes := map[OsDegradationRisk := axis, NetworkRisk := axis, SoftwareAgingRisk := axis];
      var v := ComputeHealth(Signals(Some(0), Some(1000), o, {}, map[], axes, None), None);
      v.systemic && v.state == H(2) && v.lastKnown == Some(0) && v.band == Watch
  {
    hide IsSystemic;
    var axis := Axis(true, Bad);
    ThreeAxesAreSystemic(map[OsDegradationRisk := axis, NetworkRisk := axis, SoftwareAgingRisk := axis], map[]);
  }
}
