/** server/shrink.py, the scores part: the one-off migration that brings a legacy table to the form which
    the server keeps by one row per insert. */
module Shrink {
  import opened Wrappers
  import opened Sequences
  import opened Scores

  const BATCH := 500

  /** Primary keys: positive, and the table is in their order. */
  predicate Sorted(rows: seq<Row>) {
    rows == [] || (rows[0].id > 0 && Above(rows[1..], rows[0].id) && Sorted(rows[1..]))
  }

  predicate Above(rows: seq<Row>, id: nat) {
    forall r :: r in rows ==> id < r.id
  }

  function UpTo(rows: seq<Row>, maxId: nat): seq<Row> {
    if rows == [] then []
    else if rows[0].id <= maxId then [rows[0]] + UpTo(rows[1..], maxId)
    else UpTo(rows[1..], maxId)
  }

  function MaxId(rows: seq<Row>): nat {
    if rows == [] then 0
    else
      var rest := MaxId(rows[1..]);
      if rows[0].id > rest then rows[0].id else rest
  }

  // ---- which rows stay full ----

  /** `ORDER BY id DESC LIMIT 10` for each of some devices. */
  function NewestOf(rows: seq<Row>, devices: set<string>): set<nat> {
    if rows == [] then {}
    else
      (if rows[0].device in devices && Count(rows[1..], rows[0].device) < KEEP_FULL then {rows[0].id} else {})
      + NewestOf(rows[1..], devices)
  }

  function Devices(rows: seq<Row>): set<string> {
    set r | r in rows :: r.device
  }

  lemma {:induction false} OneMoreDevice(rows: seq<Row>, devices: set<string>, device: string)
    ensures NewestOf(rows, devices + {device}) == NewestOf(rows, devices) + NewestOf(rows, {device})
  {
    if rows == [] {
    } else {
      OneMoreDevice(rows[1..], devices, device);
    }
  }

  lemma {:induction false} NoDevices(rows: seq<Row>)
    ensures NewestOf(rows, {}) == {}
  {
    if rows == [] {
    } else {
      NoDevices(rows[1..]);
    }
  }

  /** `_keep_ids`, within the snapshot. */
  method KeepIds(rows: seq<Row>, maxId: nat) returns (ids: set<nat>)
    ensures ids == NewestOf(UpTo(rows, maxId), Devices(UpTo(rows, maxId)))
  {
    var within := UpTo(rows, maxId);
    var left := Devices(within);
    ghost var done: set<string> := {};
    ids := {};
    NoDevices(within);
    while left != {}
      invariant done + left == Devices(within) && ids == NewestOf(within, done)
      decreases left
    {
      var device :| device in left;
      OneMoreDevice(within, done, device);
      ids := ids + NewestOf(within, {device});
      left, done := left - {device}, done + {device};
    }
    assert done == Devices(within);
  }

  /** Exactly the rows with fewer than ten newer ones of their device. */
  predicate KeepsNewest(rows: seq<Row>, keep: set<nat>) {
    rows == [] ||
    (&& (rows[0].id in keep <==> Count(rows[1..], rows[0].device) < KEEP_FULL)
     && KeepsNewest(rows[1..], keep))
  }

  lemma {:induction false} NewestAreRows(rows: seq<Row>, devices: set<string>)
    ensures forall id :: id in NewestOf(rows, devices) ==> exists r :: r in rows && r.id == id
  {
    if rows == [] {
    } else {
      NewestAreRows(rows[1..], devices);
      assert rows[0] in rows;
      assert forall r :: r in rows[1..] ==> r in rows;
    }
  }

  lemma {:induction false} KeepIdsAreNewest(rows: seq<Row>, devices: set<string>, older: set<nat>)
    requires Sorted(rows) && Devices(rows) <= devices
    requires forall id, r :: id in older && r in rows ==> id < r.id
    ensures KeepsNewest(rows, older + NewestOf(rows, devices))
  {
    if rows == [] {
    } else {
      var tail := rows[1..];
      var mine := NewestOf(rows, devices) - NewestOf(tail, devices);
      assert rows[0] in rows && rows[0].device in Devices(rows);
      assert forall r :: r in tail ==> r in rows;
      NewestAreRows(tail, devices);
      var older' := older + (if Count(tail, rows[0].device) < KEEP_FULL then {rows[0].id} else {});
      assert older + NewestOf(rows, devices) == older' + NewestOf(tail, devices);
      forall r | r in tail
        ensures r.device in devices
      {
        assert r.device in Devices(rows);
      }
      KeepIdsAreNewest(tail, devices, older');
    }
  }

  // ---- one row ----

  datatype Outcome = Untouched | Rewritten | Transformed | Skipped

  function Migrate(c: Codec, keep: set<nat>, maxId: nat, row: Row): (Row, Outcome) {
    if row.id > maxId || row.risk == None then (row, Untouched)
    else
      match c.loads(row.risk.value)
      case Some(JObj(o)) =>
        if row.id !in keep && !IsMarked(o) then
          (row.(risk := Some(c.compact(JObj(SlimRisk(o))))), Transformed)
        else if c.compact(JObj(o)) == row.risk.value then (row, Untouched)
        else (row.(risk := Some(c.compact(JObj(o)))), Rewritten)
      case _ => (row, Skipped)
  }

  function Pass(c: Codec, keep: set<nat>, maxId: nat, rows: seq<Row>): seq<Row> {
    if rows == [] then []
    else [Migrate(c, keep, maxId, rows[0]).0] + Pass(c, keep, maxId, rows[1..])
  }

  function Tally(c: Codec, keep: set<nat>, maxId: nat, rows: seq<Row>, o: Outcome): nat {
    if rows == [] then 0
    else (if Migrate(c, keep, maxId, rows[0]).1 == o then 1 else 0) + Tally(c, keep, maxId, rows[1..], o)
  }

  /** `WHERE id > last AND id <= max AND risk IS NOT NULL ORDER BY id` */
  function Candidates(rows: seq<Row>, lastId: nat, maxId: nat): seq<Row> {
    if rows == [] then []
    else if lastId < rows[0].id <= maxId && rows[0].risk.Some? then [rows[0]] + Candidates(rows[1..], lastId, maxId)
    else Candidates(rows[1..], lastId, maxId)
  }

  /** `UPDATE ... SET risk=? WHERE id=?` */
  function Put(rows: seq<Row>, id: nat, risk: string): seq<Row> {
    if rows == [] then []
    else [if rows[0].id == id then rows[0].(risk := Some(risk)) else rows[0]] + Put(rows[1..], id, risk)
  }

  lemma {:induction false} PassBelow(c: Codec, keep: set<nat>, upTo: nat, rows: seq<Row>)
    requires Above(rows, upTo)
    ensures Pass(c, keep, upTo, rows) == rows
    ensures Tally(c, keep, upTo, rows, Rewritten) == 0
    ensures Tally(c, keep, upTo, rows, Transformed) == 0
    ensures Tally(c, keep, upTo, rows, Skipped) == 0
  {
    if rows == [] {
    } else {
      assert rows[0] in rows && forall r :: r in rows[1..] ==> r in rows;
      PassBelow(c, keep, upTo, rows[1..]);
      HeadPlusTail(rows);
    }
  }

  lemma {:induction false} CandidatesBelow(rows: seq<Row>, lastId: nat, laterId: nat, maxId: nat)
    requires lastId <= laterId && Above(rows, laterId)
    ensures Candidates(rows, lastId, maxId) == Candidates(rows, laterId, maxId)
  {
    if rows == [] {
    } else {
      assert rows[0] in rows && forall r :: r in rows[1..] ==> r in rows;
      CandidatesBelow(rows[1..], lastId, laterId, maxId);
    }
  }

  lemma {:induction false} PutBelow(rows: seq<Row>, id: nat, risk: string)
    requires Above(rows, id)
    ensures Put(rows, id, risk) == rows
  {
    if rows == [] {
    } else {
      assert rows[0] in rows && forall r :: r in rows[1..] ==> r in rows;
      PutBelow(rows[1..], id, risk);
      HeadPlusTail(rows);
    }
  }

  lemma {:induction false} CandidateIsRow(rows: seq<Row>, lastId: nat, maxId: nat)
    ensures Candidates(rows, lastId, maxId) != [] ==>
      var r := Candidates(rows, lastId, maxId)[0]; r in rows && lastId < r.id <= maxId && r.risk.Some?
  {
    if rows == [] {
    } else {
      CandidateIsRow(rows[1..], lastId, maxId);
      assert rows[0] in rows && forall r :: r in rows[1..] ==> r in rows;
    }
  }

  lemma {:induction false} SameCandidates(c: Codec, keep: set<nat>, rows: seq<Row>, lastId: nat, maxId: nat)
    ensures Candidates(Pass(c, keep, lastId, rows), lastId, maxId) == Candidates(rows, lastId, maxId)
  {
    if rows == [] {
    } else {
      SameCandidates(c, keep, rows[1..], lastId, maxId);
      ConsTail(Migrate(c, keep, lastId, rows[0]).0, Pass(c, keep, lastId, rows[1..]));
    }
  }

  lemma QuietOutcome(c: Codec, keep: set<nat>, maxId: nat, row: Row)
    requires Migrate(c, keep, maxId, row).1 == Untouched || Migrate(c, keep, maxId, row).1 == Skipped
    ensures Migrate(c, keep, maxId, row).0 == row
  {}

  /** What `Migrate` reads of its bound. */
  lemma MigrateBound(c: Codec, keep: set<nat>, maxId: nat, row: Row)
    ensures Migrate(c, keep, maxId, row).0.id == row.id && Migrate(c, keep, maxId, row).0.device == row.device
    ensures row.id > maxId || row.risk == None ==> Migrate(c, keep, maxId, row) == (row, Untouched)
    ensures row.id <= maxId ==> Migrate(c, keep, maxId, row) == Migrate(c, keep, row.id, row)
    ensures row.risk.Some? ==> Migrate(c, keep, maxId, row).0.risk.Some?
    ensures Migrate(c, keep, maxId, row).0 == row.(risk := Migrate(c, keep, maxId, row).0.risk)
  {}

  lemma {:induction false} NextCandidates(rows: seq<Row>, lastId: nat, maxId: nat)
    requires Sorted(rows) && Candidates(rows, lastId, maxId) != []
    ensures Candidates(rows, Candidates(rows, lastId, maxId)[0].id, maxId) == Candidates(rows, lastId, maxId)[1..]
  {
    var head, tail := rows[0], rows[1..];
    CandidateIsRow(tail, lastId, maxId);
    if lastId < head.id <= maxId && head.risk.Some? {
      ConsTail(head, Candidates(tail, lastId, maxId));
      CandidatesBelow(tail, lastId, head.id, maxId);
    } else {
      NextCandidates(tail, lastId, maxId);
    }
  }

  /** Handling the next candidate moves the cursor on, whatever rows lie between. */
  lemma {:induction false} OneCandidate(c: Codec, keep: set<nat>, rows: seq<Row>, lastId: nat, maxId: nat)
    requires Sorted(rows) && Candidates(rows, lastId, maxId) != []
    ensures var r := Candidates(rows, lastId, maxId)[0];
      && r.risk.Some? && Migrate(c, keep, r.id, r).0.risk.Some?
      && Pass(c, keep, r.id, rows) == Put(Pass(c, keep, lastId, rows), r.id, Migrate(c, keep, r.id, r).0.risk.value)
  {
    hide Migrate;
    var head, tail := rows[0], rows[1..];
    var r := Candidates(rows, lastId, maxId)[0];
    CandidateIsRow(tail, lastId, maxId);
    MigrateBound(c, keep, lastId, head);
    MigrateBound(c, keep, r.id, head);
    ConsTail(Migrate(c, keep, lastId, head).0, Pass(c, keep, lastId, tail));
    if lastId < head.id <= maxId && head.risk.Some? {
      PassBelow(c, keep, lastId, tail);
      PassBelow(c, keep, head.id, tail);
      PutBelow(tail, head.id, Migrate(c, keep, head.id, head).0.risk.value);
    } else {
      OneCandidate(c, keep, tail, lastId, maxId);
      assert r in tail;
    }
  }

  lemma {:induction false} OneTally(c: Codec, keep: set<nat>, rows: seq<Row>, lastId: nat, maxId: nat, o: Outcome)
    requires Sorted(rows) && Candidates(rows, lastId, maxId) != [] && o != Untouched
    ensures var r := Candidates(rows, lastId, maxId)[0];
      Tally(c, keep, r.id, rows, o) ==
      Tally(c, keep, lastId, rows, o) + (if Migrate(c, keep, r.id, r).1 == o then 1 else 0)
  {
    hide Migrate;
    var head, tail := rows[0], rows[1..];
    var r := Candidates(rows, lastId, maxId)[0];
    CandidateIsRow(tail, lastId, maxId);
    MigrateBound(c, keep, lastId, head);
    MigrateBound(c, keep, r.id, head);
    if lastId < head.id <= maxId && head.risk.Some? {
      PassBelow(c, keep, lastId, tail);
      PassBelow(c, keep, head.id, tail);
    } else {
      OneTally(c, keep, tail, lastId, maxId, o);
      assert r in tail;
    }
  }

  lemma {:induction false} PutSame(rows: seq<Row>, r: Row)
    requires Sorted(rows) && r in rows && r.risk.Some?
    ensures Put(rows, r.id, r.risk.value) == rows
  {
    if rows[0] == r {
      PutBelow(rows[1..], r.id, r.risk.value);
      HeadPlusTail(rows);
    } else {
      PutSame(rows[1..], r);
      HeadPlusTail(rows);
    }
  }

  lemma {:induction false} NoMoreCandidates(c: Codec, keep: set<nat>, rows: seq<Row>, lastId: nat, maxId: nat)
    requires lastId <= maxId && Candidates(rows, lastId, maxId) == []
    ensures Pass(c, keep, lastId, rows) == Pass(c, keep, maxId, rows)
    ensures forall o :: o != Untouched ==> Tally(c, keep, lastId, rows, o) == Tally(c, keep, maxId, rows, o)
  {
    if rows == [] {
    } else {
      NoMoreCandidates(c, keep, rows[1..], lastId, maxId);
    }
  }

  lemma {:induction false} PassKeepsCount(c: Codec, keep: set<nat>, maxId: nat, rows: seq<Row>, device: string)
    ensures Count(Pass(c, keep, maxId, rows), device) == Count(rows, device)
  {
    if rows == [] {
    } else {
      PassKeepsCount(c, keep, maxId, rows[1..], device);
      MigrateBound(c, keep, maxId, rows[0]);
      ConsTail(Migrate(c, keep, maxId, rows[0]).0, Pass(c, keep, maxId, rows[1..]));
    }
  }

  lemma {:induction false} PassKeepsAbove(c: Codec, keep: set<nat>, maxId: nat, rows: seq<Row>, id: nat)
    requires Above(rows, id)
    ensures Above(Pass(c, keep, maxId, rows), id)
  {
    hide Migrate;
    if rows == [] {
    } else {
      assert rows[0] in rows && forall r :: r in rows[1..] ==> r in rows;
      PassKeepsAbove(c, keep, maxId, rows[1..], id);
      MigrateBound(c, keep, maxId, rows[0]);
    }
  }

  lemma {:induction false} PassKeepsSorted(c: Codec, keep: set<nat>, maxId: nat, rows: seq<Row>)
    requires Sorted(rows)
    ensures Sorted(Pass(c, keep, maxId, rows))
  {
    hide Migrate;
    if rows == [] {
    } else {
      PassKeepsSorted(c, keep, maxId, rows[1..]);
      PassKeepsAbove(c, keep, maxId, rows[1..], rows[0].id);
      MigrateBound(c, keep, maxId, rows[0]);
      ConsTail(Migrate(c, keep, maxId, rows[0]).0, Pass(c, keep, maxId, rows[1..]));
    }
  }

  // ---- the pass ----

  /** One row of a batch. */
  method RewriteRow(t: Table, keep: set<nat>, row: Row) returns (o: Outcome)
    requires row.risk.Some?
    modifies t`rows
    ensures o == Migrate(t.c, keep, row.id, row).1
    ensures t.rows ==
      if o == Rewritten || o == Transformed then Put(old(t.rows), row.id, Migrate(t.c, keep, row.id, row).0.risk.value)
      else old(t.rows)
  {
    match t.c.loads(row.risk.value)
    case Some(JObj(v)) =>
      if row.id !in keep && !IsMarked(v) {
        t.rows := Put(t.rows, row.id, t.c.compact(JObj(SlimRisk(v))));
        return Transformed;
      }
      var compact := t.c.compact(JObj(v));
      if compact == row.risk.value {
        return Untouched;
      }
      t.rows := Put(t.rows, row.id, compact);
      o := Rewritten;
    case _ =>
      o := Skipped;
  }

  /** Batches of 500 above a cursor; every row up to `maxId` with text is handled exactly once, from the text it
      had at the start, and rows above `maxId` are out of reach. */
  method RewriteJsonColumn(t: Table, keep: set<nat>, maxId: nat)
    returns (rewritten: nat, transformed: nat, skipped: nat)
    requires Sorted(t.rows)
    modifies t`rows
    ensures t.rows == Pass(t.c, keep, maxId, old(t.rows))
    ensures rewritten == Tally(t.c, keep, maxId, old(t.rows), Rewritten)
    ensures transformed == Tally(t.c, keep, maxId, old(t.rows), Transformed)
    ensures skipped == Tally(t.c, keep, maxId, old(t.rows), Skipped)
  {
    hide Migrate;
    hide Pass;
    hide Tally;
    hide Candidates;
    hide Put;
    rewritten, transformed, skipped := 0, 0, 0;
    var lastId: nat := 0;
    ghost var was := t.rows;
    SortedAbove(was);
    PassBelow(t.c, keep, 0, was);
    while true
      invariant lastId <= maxId && t.rows == Pass(t.c, keep, lastId, was)
      invariant rewritten == Tally(t.c, keep, lastId, was, Rewritten)
      invariant transformed == Tally(t.c, keep, lastId, was, Transformed)
      invariant skipped == Tally(t.c, keep, lastId, was, Skipped)
      decreases |Candidates(was, lastId, maxId)|
    {
      var found := Candidates(t.rows, lastId, maxId);
      SameCandidates(t.c, keep, was, lastId, maxId);
      var batch := if |found| <= BATCH then found else found[..BATCH];
      if batch == [] {
        NoMoreCandidates(t.c, keep, was, lastId, maxId);
        break;
      }
      var k := 0;
      while k < |batch|
        invariant k <= |batch| <= |found| && batch == found[..|batch|]
        invariant lastId <= maxId && t.rows == Pass(t.c, keep, lastId, was)
        invariant found[k..] == Candidates(was, lastId, maxId)
        invariant rewritten == Tally(t.c, keep, lastId, was, Rewritten)
        invariant transformed == Tally(t.c, keep, lastId, was, Transformed)
        invariant skipped == Tally(t.c, keep, lastId, was, Skipped)
      {
        var row := batch[k];
        assert found[k..][0] == row && found[k..][1..] == found[k + 1..];
        CandidateIsRow(was, lastId, maxId);
        NextCandidates(was, lastId, maxId);
        OneCandidate(t.c, keep, was, lastId, maxId);
        PendingRow(t.c, keep, was, lastId, row);
        OneTally(t.c, keep, was, lastId, maxId, Rewritten);
        OneTally(t.c, keep, was, lastId, maxId, Transformed);
        OneTally(t.c, keep, was, lastId, maxId, Skipped);
        lastId := row.id;
        var o := RewriteRow(t, keep, row);
        if o == Untouched || o == Skipped {
          QuietOutcome(t.c, keep, row.id, row);
        }
        match o {
          case Untouched =>
          case Rewritten => rewritten := rewritten + 1;
          case Transformed => transformed := transformed + 1;
          case Skipped => skipped := skipped + 1;
        }
        k := k + 1;
      }
    }
  }

  lemma {:induction false} SortedAbove(rows: seq<Row>)
    requires Sorted(rows)
    ensures Above(rows, 0)
  {
    if rows == [] {
    } else {
      SortedAbove(rows[1..]);
      HeadPlusTail(rows);
    }
  }

  /** A row above the cursor still has its first text. */
  lemma PendingRow(c: Codec, keep: set<nat>, rows: seq<Row>, lastId: nat, r: Row)
    requires Sorted(rows) && r in rows && lastId < r.id && r.risk.Some?
    ensures Put(Pass(c, keep, lastId, rows), r.id, r.risk.value) == Pass(c, keep, lastId, rows)
  {
    PassKeepsSorted(c, keep, lastId, rows);
    PassHolds(c, keep, rows, lastId, r);
    PutSame(Pass(c, keep, lastId, rows), r);
  }

  lemma {:induction false} PassHolds(c: Codec, keep: set<nat>, rows: seq<Row>, lastId: nat, r: Row)
    requires r in rows && lastId < r.id
    ensures r in Pass(c, keep, lastId, rows)
  {
    var p := Pass(c, keep, lastId, rows);
    HeadPlusTail(p);
    if rows[0] == r {
      assert p[0] == r;
    } else {
      PassHolds(c, keep, rows[1..], lastId, r);
      ConsTail(p[0], Pass(c, keep, lastId, rows[1..]));
      assert r in p[1..];
    }
  }

  /** The scores part of `run`. */
  method RunScores(t: Table) returns (rewritten: nat, slimmed: nat, skipped: nat)
    requires Sorted(t.rows)
    modifies t`rows
    ensures var keep, maxId := Keep(old(t.rows)), MaxId(old(t.rows));
      && t.rows == Pass(t.c, keep, maxId, old(t.rows))
      && rewritten == Tally(t.c, keep, maxId, old(t.rows), Rewritten)
      && slimmed == Tally(t.c, keep, maxId, old(t.rows), Transformed)
      && skipped == Tally(t.c, keep, maxId, old(t.rows), Skipped)
  {
    var maxId := MaxId(t.rows);
    var keep := KeepIds(t.rows, maxId);
    rewritten, slimmed, skipped := RewriteJsonColumn(t, keep, maxId);
  }

  function Keep(rows: seq<Row>): set<nat> {
    var within := UpTo(rows, MaxId(rows));
    NewestOf(within, Devices(within))
  }

  function Migrated(c: Codec, rows: seq<Row>): seq<Row> {
    Pass(c, Keep(rows), MaxId(rows), rows)
  }

  // ---- what the migration achieves ----

  lemma {:induction false} MaxIdIsMax(rows: seq<Row>)
    ensures forall r :: r in rows ==> r.id <= MaxId(rows)
  {
    if rows == [] {
    } else {
      MaxIdIsMax(rows[1..]);
      HeadPlusTail(rows);
    }
  }

  lemma {:induction false} UpToAll(rows: seq<Row>, maxId: nat)
    requires forall r :: r in rows ==> r.id <= maxId
    ensures UpTo(rows, maxId) == rows
  {
    if rows == [] {
    } else {
      HeadPlusTail(rows);
      assert rows[0] in rows && forall r :: r in rows[1..] ==> r in rows;
      UpToAll(rows[1..], maxId);
    }
  }

  lemma KeepIsNewest(rows: seq<Row>)
    requires Sorted(rows)
    ensures KeepsNewest(rows, Keep(rows))
  {
    MaxIdIsMax(rows);
    UpToAll(rows, MaxId(rows));
    KeepIdsAreNewest(rows, Devices(rows), {});
    assert {} + Keep(rows) == Keep(rows);
  }

  lemma {:induction false} PassIsTidy(c: Codec, keep: set<nat>, maxId: nat, rows: seq<Row>)
    requires IsCodec(c) && Sorted(rows) && KeepsNewest(rows, keep)
    requires forall r :: r in rows ==> r.id <= maxId
    ensures Tidy(c, Pass(c, keep, maxId, rows), None)
  {
    if rows == [] {
    } else {
      assert rows[0] in rows && forall r :: r in rows[1..] ==> r in rows;
      PassIsTidy(c, keep, maxId, rows[1..]);
      PassKeepsCount(c, keep, maxId, rows[1..], rows[0].device);
      MigratedRow(c, keep, maxId, rows[0]);
      ConsTail(Migrate(c, keep, maxId, rows[0]).0, Pass(c, keep, maxId, rows[1..]));
    }
  }

  /** What migrating one row does to the verdict that it holds. */
  lemma MigratedRow(c: Codec, keep: set<nat>, maxId: nat, row: Row)
    requires IsCodec(c)
    ensures var after := Migrate(c, keep, maxId, row).0;
      && after.id == row.id && after.device == row.device && after.ts == row.ts
      && (row.id in keep || row.id > maxId ==> Verdict(c, after) == Verdict(c, row))
      && (row.id !in keep && row.id <= maxId ==> Settled(c, after))
      && (Verdict(c, after) == Verdict(c, row)
          || (Verdict(c, row).Some? && Verdict(c, after) == Some(SlimRisk(Verdict(c, row).value))))
      && Migrate(c, keep, maxId, after).0 == after
      && Migrate(c, keep, maxId, after).1 == (if Migrate(c, keep, maxId, row).1 == Skipped then Skipped else Untouched)
  {
    if row.id <= maxId && row.risk.Some? {
      match c.loads(row.risk.value)
      case Some(JObj(o)) =>
        assert ReadsBack(c, JObj(o));
        SlimTwice(o);
      case _ =>
    }
  }

  /** On any legacy table the migration establishes what the server then keeps row by row. */
  lemma MigrationEstablishesTidy(c: Codec, rows: seq<Row>)
    requires IsCodec(c) && Sorted(rows)
    ensures Tidy(c, Migrated(c, rows), None)
  {
    KeepIsNewest(rows);
    MaxIdIsMax(rows);
    PassIsTidy(c, Keep(rows), MaxId(rows), rows);
  }

  lemma {:induction false} PassAt(c: Codec, keep: set<nat>, maxId: nat, rows: seq<Row>, i: nat)
    requires i < |rows|
    ensures |Pass(c, keep, maxId, rows)| == |rows|
    ensures Pass(c, keep, maxId, rows)[i] == Migrate(c, keep, maxId, rows[i]).0
  {
    if i == 0 {
      if |rows| > 1 {
        PassAt(c, keep, maxId, rows[1..], 0);
      }
    } else {
      PassAt(c, keep, maxId, rows[1..], i - 1);
    }
  }

  lemma {:induction false} KeepsNewestAt(rows: seq<Row>, keep: set<nat>, i: nat)
    requires KeepsNewest(rows, keep) && i < |rows|
    ensures rows[i].id in keep <==> Count(rows[i + 1..], rows[i].device) < KEEP_FULL
  {
    if i == 0 {
    } else {
      assert rows[1..][i..] == rows[i + 1..];
      KeepsNewestAt(rows[1..], keep, i - 1);
    }
  }

  /** It never slims one of the ten newest rows of a device. */
  lemma NewestTenStayFull(c: Codec, rows: seq<Row>, i: nat)
    requires IsCodec(c) && Sorted(rows) && i < |rows| && Count(rows[i + 1..], rows[i].device) < KEEP_FULL
    ensures |Migrated(c, rows)| == |rows| && Verdict(c, Migrated(c, rows)[i]) == Verdict(c, rows[i])
  {
    KeepIsNewest(rows);
    KeepsNewestAt(rows, Keep(rows), i);
    PassAt(c, Keep(rows), MaxId(rows), rows, i);
    MigratedRow(c, Keep(rows), MaxId(rows), rows[i]);
  }

  lemma {:induction false} SameNewest(c: Codec, keep: set<nat>, maxId: nat, rows: seq<Row>, devices: set<string>)
    requires IsCodec(c) && Sorted(rows)
    ensures NewestOf(Pass(c, keep, maxId, rows), devices) == NewestOf(rows, devices)
    ensures Devices(Pass(c, keep, maxId, rows)) == Devices(rows)
    ensures MaxId(Pass(c, keep, maxId, rows)) == MaxId(rows)
  {
    if rows == [] {
    } else {
      SameNewest(c, keep, maxId, rows[1..], devices);
      PassKeepsCount(c, keep, maxId, rows[1..], rows[0].device);
      MigrateBound(c, keep, maxId, rows[0]);
      var p := Pass(c, keep, maxId, rows);
      ConsTail(p[0], Pass(c, keep, maxId, rows[1..]));
      DevicesCons(rows);
      DevicesCons(p);
    }
  }

  lemma DevicesCons(rows: seq<Row>)
    requires rows != []
    ensures Devices(rows) == {rows[0].device} + Devices(rows[1..])
  {
    HeadPlusTail(rows);
    assert forall r :: r in rows <==> r == rows[0] || r in rows[1..];
  }

  lemma {:induction false} PassTwice(c: Codec, keep: set<nat>, maxId: nat, rows: seq<Row>)
    requires IsCodec(c)
    ensures var p := Pass(c, keep, maxId, rows);
      && Pass(c, keep, maxId, p) == p
      && Tally(c, keep, maxId, p, Rewritten) == 0 && Tally(c, keep, maxId, p, Transformed) == 0
      && Tally(c, keep, maxId, p, Skipped) == Tally(c, keep, maxId, rows, Skipped)
  {
    if rows == [] {
    } else {
      PassTwice(c, keep, maxId, rows[1..]);
      MigratedRow(c, keep, maxId, rows[0]);
      ConsTail(Migrate(c, keep, maxId, rows[0]).0, Pass(c, keep, maxId, rows[1..]));
    }
  }

  /** A second run changes nothing and counts only the unreadable rows again. */
  lemma SecondRunChangesNothing(c: Codec, rows: seq<Row>)
    requires IsCodec(c) && Sorted(rows)
    ensures var once, keep, maxId := Migrated(c, rows), Keep(Migrated(c, rows)), MaxId(Migrated(c, rows));
      && Migrated(c, once) == once
      && Tally(c, keep, maxId, once, Rewritten) == 0 && Tally(c, keep, maxId, once, Transformed) == 0
      && Tally(c, keep, maxId, once, Skipped) == Tally(c, Keep(rows), MaxId(rows), rows, Skipped)
  {
    var once := Migrated(c, rows);
    MaxIdIsMax(rows);
    MaxIdIsMax(once);
    UpToAll(rows, MaxId(rows));
    UpToAll(once, MaxId(once));
    SameNewest(c, Keep(rows), MaxId(rows), rows, Devices(rows));
    PassTwice(c, Keep(rows), MaxId(rows), rows);
  }
}
