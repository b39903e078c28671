/** server/analytics/rulestats.py and server/db.py, `record_rule_outcomes` and `run_rulestats_scan`: rule episodes are
    found again at every sweep and counted once, through a dedup table that is pruned. */
module RuleStats {
  import opened Sequences

  const DAY := 86400
  const CONFIRM_WINDOW := 45 * DAY
  const REFUTE_WINDOW := 60 * DAY
  const SCAN_LOOKBACK := REFUTE_WINDOW + 10 * DAY
  const EPISODE_PRUNE_MARGIN := 1 * DAY
  const SCAN_ROW_CAP := 5000

  datatype Rule = PendingHigh | MediaRecurrence | EarlyChain

  const RULES := [PendingHigh, MediaRecurrence, EarlyChain]

  datatype Outcome = Confirmed | Refuted

  /** What a stored verdict shows: the rule flags set in it, and whether it confirms. */
  datatype Row = Row(ts: int, flags: set<Rule>, confirms: bool)

  type Device = string

  datatype Episode = Episode(rule: Rule, device: Device, end: int)

  datatype Report = Report(episode: Episode, outcome: Outcome)

  // ---- scanning one device ----

  /** Any row with end < ts <= end + window that confirms or, where `orFlag`, shows the flag. */
  predicate HasRow(rows: seq<Row>, end: int, window: int, rule: Rule, orFlag: bool) {
    exists r :: r in rows && end < r.ts <= end + window && (r.confirms || (orFlag && rule in r.flags))
  }

  /** `_resolve_episode`: at most one outcome. */
  function Resolve(rows: seq<Row>, end: int, rule: Rule, now: int): seq<Outcome> {
    if HasRow(rows, end, CONFIRM_WINDOW, rule, false) then [Confirmed]
    else if now - end >= REFUTE_WINDOW && !HasRow(rows, end, REFUTE_WINDOW, rule, true) then [Refuted]
    else []
  }

  function ReportsOf(rows: seq<Row>, device: Device, rule: Rule, end: int, now: int): seq<Report> {
    var o := Resolve(rows, end, rule, now);
    if o == [] then [] else [Report(Episode(rule, device, end), o[0])]
  }

  /** Runs that end inside `rows[i..]`; `run` holds the last flagged time of an open run. */
  function ScanFrom(rows: seq<Row>, device: Device, rule: Rule, now: int, i: nat, run: seq<int>): seq<Report>
    requires i <= |rows| && |run| <= 1
    decreases |rows| - i
  {
    if i == |rows| then []
    else if rule in rows[i].flags then ScanFrom(rows, device, rule, now, i + 1, [rows[i].ts])
    else
      (if run == [] then [] else ReportsOf(rows, device, rule, run[0], now))
      + ScanFrom(rows, device, rule, now, i + 1, [])
  }

  function ScanRules(rows: seq<Row>, device: Device, now: int, rules: seq<Rule>): seq<Report>
    decreases |rules|
  {
    if rules == [] then [] else ScanFrom(rows, device, rules[0], now, 0, []) + ScanRules(rows, device, now, rules[1..])
  }

  method ScanRule(rows: seq<Row>, device: Device, rule: Rule, now: int) returns (out: seq<Report>)
    ensures out == ScanFrom(rows, device, rule, now, 0, [])
  {
    out := [];
    var inRun, runEnd := false, 0;
    for i := 0 to |rows|
      invariant out + ScanFrom(rows, device, rule, now, i, if inRun then [runEnd] else [])
          == ScanFrom(rows, device, rule, now, 0, [])
    {
      if rule in rows[i].flags {
        inRun, runEnd := true, rows[i].ts;
        continue;
      }
      if inRun {
        ghost var rest := ScanFrom(rows, device, rule, now, i + 1, []);
        PlusIsAssociative(out, ReportsOf(rows, device, rule, runEnd, now), rest);
        var o := Resolve(rows, runEnd, rule, now);
        if o != [] {
          out := out + [Report(Episode(rule, device, runEnd), o[0])];
        } else {
          PlusEmpty(out);
        }
        inRun := false;
      } else {
        PlusEmpty(ScanFrom(rows, device, rule, now, i + 1, []));
      }
    }
    PlusEmpty(out);
  }

  method ScanDevice(rows: seq<Row>, device: Device, now: int) returns (out: seq<Report>)
    ensures out == ScanRules(rows, device, now, RULES)
  {
    out := [];
    for i := 0 to |RULES|
      invariant out + ScanRules(rows, device, now, RULES[i..]) == ScanRules(rows, device, now, RULES)
    {
      var more := ScanRule(rows, device, RULES[i], now);
      assert RULES[i..][1..] == RULES[i + 1..];
      PlusIsAssociative(out, more, ScanRules(rows, device, now, RULES[i + 1..]));
      out := out + more;
    }
    PlusEmpty(out);
  }

  /** A report names its device, ends at a flagged row of the window, and has the outcome of that end. */
  ghost predicate WellFounded(rows: seq<Row>, device: Device, now: int, p: Report) {
    && p.episode.device == device
    && (exists r :: r in rows && r.ts == p.episode.end && p.episode.rule in r.flags)
    && Resolve(rows, p.episode.end, p.episode.rule, now) == [p.outcome]
  }

  lemma {:induction false} ReportsAreFlaggedEnds(rows: seq<Row>, device: Device, rule: Rule, now: int, i: nat,
                                                 run: seq<int>)
    requires i <= |rows| && |run| <= 1
    requires run != [] ==> exists r :: r in rows && r.ts == run[0] && rule in r.flags
    ensures forall p :: p in ScanFrom(rows, device, rule, now, i, run) ==> WellFounded(rows, device, now, p)
    decreases |rows| - i
  {
    if i == |rows| {
    } else if rule in rows[i].flags {
      assert rows[i] in rows;
      ReportsAreFlaggedEnds(rows, device, rule, now, i + 1, [rows[i].ts]);
    } else {
      ReportsAreFlaggedEnds(rows, device, rule, now, i + 1, []);
      if run != [] {
        forall p | p in ReportsOf(rows, device, rule, run[0], now)
          ensures WellFounded(rows, device, now, p)
        {
          assert p.episode == Episode(rule, device, run[0]);
        }
      }
    }
  }

  lemma {:induction false} DeviceReports(rows: seq<Row>, device: Device, now: int, rules: seq<Rule>)
    ensures forall p :: p in ScanRules(rows, device, now, rules) ==> WellFounded(rows, device, now, p)
    decreases |rules|
  {
    if rules == [] {
    } else {
      ReportsAreFlaggedEnds(rows, device, rules[0], now, 0, []);
      DeviceReports(rows, device, now, rules[1..]);
    }
  }

  /** An episode ends where a flagged row is followed by an unflagged one. A run still open at the last row is left
      alone. */
  predicate EndsAt(rows: seq<Row>, rule: Rule, k: nat) {
    k + 1 < |rows| && rule in rows[k].flags && rule !in rows[k + 1].flags
  }

  /** The open run that the scan carries into position `i`. */
  function Carried(rows: seq<Row>, rule: Rule, i: nat): seq<int>
    requires i <= |rows|
  {
    if i > 0 && rule in rows[i - 1].flags then [rows[i - 1].ts] else []
  }

  ghost predicate EndedFrom(rows: seq<Row>, device: Device, rule: Rule, now: int, i: nat, p: Report) {
    exists k: nat :: i <= k + 1 && EndsAt(rows, rule, k) && p in ReportsOf(rows, device, rule, rows[k].ts, now)
  }

  /** The scan reports exactly the resolved ends, all of them. */
  lemma {:induction false} ScanIsExact(rows: seq<Row>, device: Device, rule: Rule, now: int, i: nat, p: Report)
    requires i <= |rows|
    ensures p in ScanFrom(rows, device, rule, now, i, Carried(rows, rule, i))
        <==> EndedFrom(rows, device, rule, now, i, p)
    decreases |rows| - i
  {
    hide ReportsOf;
    if i == |rows| {
    } else {
      ScanIsExact(rows, device, rule, now, i + 1, p);
      var here := i > 0 && EndsAt(rows, rule, i - 1) && p in ReportsOf(rows, device, rule, rows[i - 1].ts, now);
      var rest := ScanFrom(rows, device, rule, now, i + 1, Carried(rows, rule, i + 1));
      assert p in ScanFrom(rows, device, rule, now, i, Carried(rows, rule, i)) <==> here || p in rest;
      EndedHereOrLater(rows, device, rule, now, i, p);
    }
  }

  lemma EndedHereOrLater(rows: seq<Row>, device: Device, rule: Rule, now: int, i: nat, p: Report)
    ensures EndedFrom(rows, device, rule, now, i, p) <==>
            (i > 0 && EndsAt(rows, rule, i - 1) && p in ReportsOf(rows, device, rule, rows[i - 1].ts, now))
            || EndedFrom(rows, device, rule, now, i + 1, p)
  {
    hide ReportsOf;
    if EndedFrom(rows, device, rule, now, i, p) {
      var k: nat :| i <= k + 1 && EndsAt(rows, rule, k) && p in ReportsOf(rows, device, rule, rows[k].ts, now);
      assert k == i - 1 || i + 1 <= k + 1;
    }
  }

  // ---- the dedup table and the counters ----

  type Episodes = map<Episode, Outcome>

  datatype Bucket = Bucket(confirmed: nat, refuted: nat) {
    function Plus(b: Bucket): Bucket {
      Bucket(confirmed + b.confirmed, refuted + b.refuted)
    }

    function Hit(o: Outcome): Bucket {
      if o == Confirmed then Bucket(confirmed + 1, refuted) else Bucket(confirmed, refuted + 1)
    }
  }

  type Stats = map<Rule, Bucket>

  function StatOf(s: Stats, r: Rule): Bucket {
    if r in s then s[r] else Bucket(0, 0)
  }

  /** `INSERT OR IGNORE`, report by report: the first outcome stays. */
  function Inserted(e: Episodes, ps: seq<Report>): Episodes
    decreases |ps|
  {
    if ps == [] then e
    else
      var before, p := Inserted(e, ps[..|ps| - 1]), ps[|ps| - 1];
      if p.episode in before then before else before[p.episode := p.outcome]
  }

  /** Rows that were really inserted, for one rule. */
  function Delta(e: Episodes, ps: seq<Report>, r: Rule): Bucket
    decreases |ps|
  {
    if ps == [] then Bucket(0, 0)
    else
      var p := ps[|ps| - 1];
      var d := Delta(e, ps[..|ps| - 1], r);
      if p.episode in Inserted(e, ps[..|ps| - 1]) || p.episode.rule != r then d else d.Hit(p.outcome)
  }

  lemma NoReports(e: Episodes)
    ensures Inserted(e, []) == e && forall r :: Delta(e, [], r) == Bucket(0, 0)
  {}

  function Since(ps: seq<Row>, since: int): seq<Row> {
    if ps == [] then []
    else if ps[0].ts >= since then [ps[0]] + Since(ps[1..], since)
    else Since(ps[1..], since)
  }

  lemma {:induction false} SinceMembers(rows: seq<Row>, since: int)
    ensures forall r :: r in Since(rows, since) ==> r in rows && r.ts >= since
  {
    if rows == [] {
    } else {
      SinceMembers(rows[1..], since);
    }
  }

  /** `get_score_series`: the newest rows inside the lookback, oldest first. */
  function Series(rows: seq<Row>, since: int): seq<Row> {
    var s := Since(rows, since);
    if |s| <= SCAN_ROW_CAP then s else s[|s| - SCAN_ROW_CAP..]
  }

  datatype History = History(device: Device, rows: seq<Row>)

  function Reports(fleet: seq<History>, now: int): seq<Report>
    decreases |fleet|
  {
    if fleet == [] then []
    else
      Reports(fleet[..|fleet| - 1], now)
      + ScanRules(Series(fleet[|fleet| - 1].rows, now - SCAN_LOOKBACK), fleet[|fleet| - 1].device, now, RULES)
  }

  /** Nothing reported is older than the lookback. */
  lemma {:induction false} ReportsAreRecent(fleet: seq<History>, now: int)
    ensures forall p :: p in Reports(fleet, now) ==> p.episode.end >= now - SCAN_LOOKBACK
    decreases |fleet|
  {
    if fleet == [] {
    } else {
      var h := fleet[|fleet| - 1];
      ReportsAreRecent(fleet[..|fleet| - 1], now);
      var rows := Series(h.rows, now - SCAN_LOOKBACK);
      SinceMembers(h.rows, now - SCAN_LOOKBACK);
      DeviceReports(rows, h.device, now, RULES);
      forall p | p in ScanRules(rows, h.device, now, RULES)
        ensures p.episode.end >= now - SCAN_LOOKBACK
      {
        assert WellFounded(rows, h.device, now, p);
      }
    }
  }

  function Pruned(e: Episodes, cutoff: int): Episodes {
    map k | k in e && k.end >= cutoff :: e[k]
  }

  /** Every device's window, on one connection. */
  method ScanFleet(fleet: seq<History>, now: int) returns (ps: seq<Report>)
    ensures ps == Reports(fleet, now)
  {
    hide Series;
    hide ScanRules;
    ps := [];
    for i := 0 to |fleet|
      invariant ps == Reports(fleet[..i], now)
    {
      var more := ScanDevice(Series(fleet[i].rows, now - SCAN_LOOKBACK), fleet[i].device, now);
      assert fleet[..i + 1][..i] == fleet[..i] && fleet[..i + 1][i] == fleet[i];
      ps := ps + more;
    }
    assert fleet[..|fleet|] == fleet;
  }

  class Database {
    var episodes: Episodes
    var stats: Stats

    constructor ()
      ensures episodes == map[] && stats == map[]
    {
      episodes, stats := map[], map[];
    }

    method RecordRuleOutcomes(ps: seq<Report>) returns (deltas: Stats)
      modifies this
      ensures episodes == Inserted(old(episodes), ps)
      ensures forall r :: StatOf(deltas, r) == Delta(old(episodes), ps, r)
      ensures forall r :: StatOf(stats, r) == StatOf(old(stats), r).Plus(Delta(old(episodes), ps, r))
    {
      deltas := map[];
      ghost var e := episodes;
      for i := 0 to |ps|
        invariant episodes == Inserted(e, ps[..i])
        invariant forall r :: StatOf(deltas, r) == Delta(e, ps[..i], r)
        invariant stats == old(stats)
      {
        assert ps[..i + 1][..i] == ps[..i] && ps[..i + 1][i] == ps[i];
        var k := ps[i].episode;
        if k in episodes {
          continue;
        }
        episodes := episodes[k := ps[i].outcome];
        deltas := deltas[k.rule := StatOf(deltas, k.rule).Hit(ps[i].outcome)];
      }
      assert ps[..|ps|] == ps;
      var left := deltas.Keys;
      while left != {}
        invariant left <= deltas.Keys && episodes == Inserted(e, ps)
        invariant forall r :: StatOf(stats, r) ==
                    if r in deltas && r !in left then StatOf(old(stats), r).Plus(deltas[r]) else StatOf(old(stats), r)
        decreases left
      {
        var r :| r in left;
        stats := stats[r := StatOf(stats, r).Plus(deltas[r])];
        left := left - {r};
      }
    }

    /** `prunes` is whether the second transaction was reached. */
    method RunRulestatsScan(fleet: seq<History>, now: int, prunes: bool)
      modifies this
      ensures episodes == (if prunes
                           then Pruned(Inserted(old(episodes), Reports(fleet, now)),
                                       now - SCAN_LOOKBACK - EPISODE_PRUNE_MARGIN)
                           else Inserted(old(episodes), Reports(fleet, now)))
      ensures forall r :: StatOf(stats, r) == StatOf(old(stats), r).Plus(Delta(old(episodes), Reports(fleet, now), r))
    {
      var ps := ScanFleet(fleet, now);
      NoReports(episodes);
      if ps != [] {
        var _ := RecordRuleOutcomes(ps);
      }
      if prunes {
        episodes := Pruned(episodes, now - SCAN_LOOKBACK - EPISODE_PRUNE_MARGIN);
      }
    }
  }

  // ---- exactly once, over whole runs ----

  /** Distinct episodes of a rule with one outcome. */
  function Selected(e: Episodes, r: Rule, o: Outcome): set<Episode> {
    set k | k in e && k.rule == r && e[k] == o
  }

  function Count(e: Episodes, r: Rule, o: Outcome): nat {
    |Selected(e, r, o)|
  }

  function Counts(e: Episodes, r: Rule): Bucket {
    Bucket(Count(e, r, Confirmed), Count(e, r, Refuted))
  }

  lemma SelectedInsert(e: Episodes, k: Episode, o: Outcome, r: Rule, x: Outcome)
    requires k !in e
    ensures Selected(e[k := o], r, x) == Selected(e, r, x) + (if k.rule == r && o == x then {k} else {})
    ensures k !in Selected(e, r, x)
  {}

  lemma CountInsert(e: Episodes, k: Episode, o: Outcome, r: Rule)
    requires k !in e
    ensures Counts(e[k := o], r) == if k.rule == r then Counts(e, r).Hit(o) else Counts(e, r)
  {
    hide Selected;
    SelectedInsert(e, k, o, r, Confirmed);
    SelectedInsert(e, k, o, r, Refuted);
  }

  /** The counters move with the table that is never pruned. */
  lemma {:induction false} DeltaIsCount(all: Episodes, ps: seq<Report>, r: Rule)
    ensures Counts(Inserted(all, ps), r) == Counts(all, r).Plus(Delta(all, ps, r))
    decreases |ps|
  {
    hide Count;
    if ps == [] {
    } else {
      var n := |ps| - 1;
      DeltaIsCount(all, ps[..n], r);
      var before := Inserted(all, ps[..n]);
      if ps[n].episode !in before {
        CountInsert(before, ps[n].episode, ps[n].outcome, r);
      }
    }
  }

  /** The pruned table and the full one agree from a time on, and the pruned one invents nothing. */
  ghost predicate Agree(e: Episodes, all: Episodes, from: int) {
    && (forall k :: k in e ==> k in all && e[k] == all[k])
    && (forall k :: k in all && k.end >= from ==> k in e)
  }

  lemma {:induction false} RecentInserts(e: Episodes, all: Episodes, from: int, ps: seq<Report>)
    requires Agree(e, all, from) && forall p :: p in ps ==> p.episode.end >= from
    ensures Agree(Inserted(e, ps), Inserted(all, ps), from)
    ensures forall r :: Delta(e, ps, r) == Delta(all, ps, r)
    decreases |ps|
  {
    if ps == [] {
    } else {
      var n := |ps| - 1;
      assert ps[n] in ps;
      RecentInserts(e, all, from, ps[..n]);
    }
  }

  datatype Sweep = Sweep(fleet: seq<History>, now: int, prunes: bool)

  datatype State = State(episodes: Episodes, stats: Stats)

  /** What `RunRulestatsScan` promises. */
  ghost predicate Next(s: State, a: Sweep, s': State) {
    && s'.episodes == (if a.prunes
                       then Pruned(Inserted(s.episodes, Reports(a.fleet, a.now)),
                                   a.now - SCAN_LOOKBACK - EPISODE_PRUNE_MARGIN)
                       else Inserted(s.episodes, Reports(a.fleet, a.now)))
    && forall r :: StatOf(s'.stats, r) == StatOf(s.stats, r).Plus(Delta(s.episodes, Reports(a.fleet, a.now), r))
  }

  ghost predicate IsRun(states: seq<State>, sweeps: seq<Sweep>) {
    && |states| == |sweeps| + 1
    && states[0] == State(map[], map[])
    && (forall i :: 0 <= i < |sweeps| ==> Next(states[i], sweeps[i], states[i + 1]))
    && forall i, k :: 0 <= i < k < |sweeps| ==> sweeps[i].now <= sweeps[k].now
  }

  /** Every episode ever reported, with the outcome first reported for it. */
  function Ever(sweeps: seq<Sweep>): Episodes
    decreases |sweeps|
  {
    if sweeps == [] then map[]
    else Inserted(Ever(sweeps[..|sweeps| - 1]), Reports(sweeps[|sweeps| - 1].fleet, sweeps[|sweeps| - 1].now))
  }

  lemma SweepAgrees(s: State, all: Episodes, a: Sweep, s': State)
    requires Agree(s.episodes, all, a.now - SCAN_LOOKBACK) && Next(s, a, s')
    requires forall r :: StatOf(s.stats, r) == Counts(all, r)
    ensures var all' := Inserted(all, Reports(a.fleet, a.now));
      && Agree(s'.episodes, all', a.now - SCAN_LOOKBACK)
      && forall r :: StatOf(s'.stats, r) == Counts(all', r)
  {
    ReportsAreRecent(a.fleet, a.now);
    RecentInserts(s.episodes, all, a.now - SCAN_LOOKBACK, Reports(a.fleet, a.now));
    forall r
      ensures StatOf(s'.stats, r) == Counts(Inserted(all, Reports(a.fleet, a.now)), r)
    {
      DeltaIsCount(all, Reports(a.fleet, a.now), r);
    }
  }

  /** Over every run of sweeps with a clock that does not go back, the counters of a rule are exactly the distinct
      episodes ever reported for it, each under its first outcome: pruning never makes one count again. */
  lemma {:induction false} EpisodesCountOnce(states: seq<State>, sweeps: seq<Sweep>, r: Rule)
    requires IsRun(states, sweeps)
    ensures StatOf(states[|sweeps|].stats, r) == Counts(Ever(sweeps), r)
  {
    RunAgrees(states, sweeps);
  }

  lemma {:induction false} RunAgrees(states: seq<State>, sweeps: seq<Sweep>)
    requires IsRun(states, sweeps)
    ensures var n := |sweeps|;
      && (forall r :: StatOf(states[n].stats, r) == Counts(Ever(sweeps), r))
      && (n > 0 ==> Agree(states[n].episodes, Ever(sweeps), sweeps[n - 1].now - SCAN_LOOKBACK))
      && (n == 0 ==> Agree(states[n].episodes, Ever(sweeps), 0))
    decreases |sweeps|
  {
    hide Next;
    hide Reports;
    var n := |sweeps|;
    if n == 0 {
      EmptyCounts();
    } else {
      RunAgrees(states[..n], sweeps[..n - 1]);
      assert Agree(states[n - 1].episodes, Ever(sweeps[..n - 1]), sweeps[n - 1].now - SCAN_LOOKBACK);
      SweepAgrees(states[n - 1], Ever(sweeps[..n - 1]), sweeps[n - 1], states[n]);
    }
  }

  lemma EmptyCounts()
    ensures forall r :: StatOf(map[], r) == Counts(map[], r)
  {
    forall r: Rule, o: Outcome
      ensures Count(map[], r, o) == 0
    {
      assert Selected(map[], r, o) == {};
    }
  }

  /** The number of distinct (device, end) pairs is the sum of both counters. */
  lemma TotalIsDistinctEpisodes(states: seq<State>, sweeps: seq<Sweep>, r: Rule)
    requires IsRun(states, sweeps)
    ensures var b := StatOf(states[|sweeps|].stats, r);
      b.confirmed + b.refuted == |set k | k in Ever(sweeps) && k.rule == r|
  {
    hide IsRun;
    hide Ever;
    EpisodesCountOnce(states, sweeps, r);
    OutcomesSplit(Ever(sweeps), r);
  }

  lemma OutcomesSplit(e: Episodes, r: Rule)
    ensures Count(e, r, Confirmed) + Count(e, r, Refuted) == |set k | k in e && k.rule == r|
  {
    assert (set k | k in e && k.rule == r) == Selected(e, r, Confirmed) + Selected(e, r, Refuted);
  }

  /** Being reported once is being counted for good, under the first outcome. */
  lemma {:induction false} EverKeepsFirst(sweeps: seq<Sweep>, n: nat, k: Episode)
    requires n <= |sweeps| && k in Ever(sweeps[..n])
    ensures k in Ever(sweeps) && Ever(sweeps)[k] == Ever(sweeps[..n])[k]
    decreases |sweeps| - n
  {
    if n == |sweeps| {
      assert sweeps[..n] == sweeps;
    } else {
      assert sweeps[..n + 1][..n] == sweeps[..n];
      InsertKeeps(Ever(sweeps[..n]), Reports(sweeps[n].fleet, sweeps[n].now), k);
      EverKeepsFirst(sweeps, n + 1, k);
    }
  }

  lemma {:induction false} InsertKeeps(e: Episodes, ps: seq<Report>, k: Episode)
    ensures k in e ==> k in Inserted(e, ps) && Inserted(e, ps)[k] == e[k]
    ensures k in Inserted(e, ps) <==> k in e || exists p :: p in ps && p.episode == k
    decreases |ps|
  {
    if ps == [] {
    } else {
      var n := |ps| - 1;
      InsertKeeps(e, ps[..n], k);
      assert ps[n] in ps;
      assert forall p :: p in ps <==> p in ps[..n] || p == ps[n];
    }
  }
}
