/** server/db.py, `_slim_risk`, `_slim_stale_scores` and `store_scores`: the verdict history, whose old
    rows are cut down to what their readers use, one row per insert. */
module Scores {
  import opened Wrappers
  import opened Sequences

  const KEEP_FULL := 10

  // ---- stored verdicts ----

  /** A float is its shortest decimal form, as Python writes it. */
  datatype Json =
    | JNull
    | JBool(flag: bool)
    | JInt(num: int)
    | JFloat(repr: string)
    | JStr(text: string)
    | JArr(items: seq<Json>)
    | JObj(fields: Fields)

  /** A dict in insertion order. */
  type Fields = seq<(string, Json)>

  function Lookup(o: Fields, key: string): Option<Json> {
    if o == [] then None
    else if o[0].0 == key then Some(o[0].1)
    else Lookup(o[1..], key)
  }

  /** `o.get(key)` */
  function Get(o: Fields, key: string): Json {
    Lookup(o, key).GetOr(JNull)
  }

  /** `_d`: anything that is not a dict reads as an empty one. */
  function AsDict(j: Json): Fields {
    if j.JObj? then j.fields else []
  }

  function SlimRisk(risk: Fields): Fields {
    var storage := AsDict(Get(AsDict(Get(risk, "score100")), "storage_risk"));
    var coords := JObj([("flags", Get(AsDict(Get(storage, "coords")), "flags"))]);
    [ ("slim", JInt(1)),
      ("health", Get(risk, "health")),
      ("score100", JObj([("storage_risk", JObj([("band", Get(storage, "band")), ("coords", coords)]))])),
      ("errchain", JObj([("stage", Lookup(AsDict(Get(risk, "errchain")), "stage").GetOr(JInt(0)))]))
    ]
  }

  /** `obj.get("slim") == 1`, which `1.0` and `True` meet as well. */
  predicate IsMarked(o: Fields) {
    Lookup(o, "slim") in {Some(JInt(1)), Some(JFloat("1.0")), Some(JBool(true))}
  }

  /** The value found by following keys through nested dicts. */
  function Path(j: Json, keys: seq<string>): Option<Json>
    decreases |keys|
  {
    if keys == [] then Some(j)
    else if !j.JObj? then None
    else
      match Lookup(j.fields, keys[0])
      case None => None
      case Some(v) => Path(v, keys[1..])
  }

  function ReadAt(j: Json, keys: seq<string>, default: Json): Json {
    Path(j, keys).GetOr(default)
  }

  lemma PathOne(j: Json, key: string)
    ensures Path(j, [key]) == Lookup(AsDict(j), key)
  {
    assert [key][1..] == [];
  }

  lemma PathTwo(j: Json, key: string, rest: seq<string>)
    requires rest != []
    ensures Path(j, [key] + rest) == Path(JObj(AsDict(Get(AsDict(j), key))), rest)
  {
    assert ([key] + rest)[1..] == rest;
  }

  /** The three places readers of old rows look at, and the health block at any depth, read the same
      before and after. */
  lemma SlimKeepsWhatIsRead(o: Fields)
    ensures var was, slim := JObj(o), JObj(SlimRisk(o));
      && ReadAt(slim, ["score100", "storage_risk", "band"], JNull)
         == ReadAt(was, ["score100", "storage_risk", "band"], JNull)
      && ReadAt(slim, ["score100", "storage_risk", "coords", "flags"], JNull)
         == ReadAt(was, ["score100", "storage_risk", "coords", "flags"], JNull)
      && ReadAt(slim, ["errchain", "stage"], JInt(0)) == ReadAt(was, ["errchain", "stage"], JInt(0))
      && ReadAt(slim, ["health"], JNull) == ReadAt(was, ["health"], JNull)
  {
    var was, slim := JObj(o), JObj(SlimRisk(o));
    SlimLookups(o);
    BandAndFlags(was);
    BandAndFlags(slim);
    PathOne(was, "health");
    PathOne(slim, "health");
    assert ["errchain", "stage"] == ["errchain"] + ["stage"];
    PathTwo(was, "errchain", ["stage"]);
    PathTwo(slim, "errchain", ["stage"]);
    PathOne(JObj(AsDict(Get(o, "errchain"))), "stage");
    PathOne(JObj(AsDict(Get(SlimRisk(o), "errchain"))), "stage");
  }

  lemma SlimKeepsHealthDeep(o: Fields, keys: seq<string>)
    requires keys != []
    ensures Path(JObj(SlimRisk(o)), ["health"] + keys) == Path(JObj(o), ["health"] + keys)
  {
    SlimLookups(o);
    PathTwo(JObj(o), "health", keys);
    PathTwo(JObj(SlimRisk(o)), "health", keys);
  }

  function Storage(o: Fields): Fields {
    AsDict(Get(AsDict(Get(o, "score100")), "storage_risk"))
  }

  lemma BandAndFlags(j: Json)
    requires j.JObj?
    ensures Path(j, ["score100", "storage_risk", "band"]) == Lookup(Storage(j.fields), "band")
    ensures Path(j, ["score100", "storage_risk", "coords", "flags"])
              == Lookup(AsDict(Get(Storage(j.fields), "coords")), "flags")
  {
    var inner := JObj(AsDict(Get(j.fields, "score100")));
    var storage := JObj(Storage(j.fields));
    assert ["score100", "storage_risk", "band"] == ["score100"] + (["storage_risk"] + ["band"]);
    assert ["score100", "storage_risk", "coords", "flags"] == ["score100"]
        + (["storage_risk"] + (["coords"] + ["flags"]));
    PathTwo(j, "score100", ["storage_risk"] + ["band"]);
    PathTwo(j, "score100", ["storage_risk"] + (["coords"] + ["flags"]));
    PathTwo(inner, "storage_risk", ["band"]);
    PathTwo(inner, "storage_risk", ["coords"] + ["flags"]);
    PathOne(storage, "band");
    PathTwo(storage, "coords", ["flags"]);
    PathOne(JObj(AsDict(Get(Storage(j.fields), "coords"))), "flags");
  }

  lemma LookupCons(key: string, v: Json, o: Fields, wanted: string)
    ensures Lookup([(key, v)] + o, wanted) == if key == wanted then Some(v) else Lookup(o, wanted)
  {
    ConsTail((key, v), o);
  }

  lemma LookupTwo(k0: string, v0: Json, k1: string, v1: Json)
    requires k0 != k1
    ensures Lookup([(k0, v0), (k1, v1)], k0) == Some(v0) && Lookup([(k0, v0), (k1, v1)], k1) == Some(v1)
  {
    assert [(k0, v0), (k1, v1)][1..] == [(k1, v1)];
  }

  lemma SlimLookups(o: Fields)
    ensures var s := SlimRisk(o);
      && Lookup(s, "slim") == Some(JInt(1))
      && Lookup(s, "health") == Some(Get(o, "health"))
      && Lookup(s, "errchain").Some?
      && Lookup(AsDict(Get(s, "errchain")), "stage")
         == Some(Lookup(AsDict(Get(o, "errchain")), "stage").GetOr(JInt(0)))
      && Lookup(Storage(s), "band") == Some(Get(Storage(o), "band"))
      && Lookup(AsDict(Get(Storage(s), "coords")), "flags") == Some(Get(AsDict(Get(Storage(o), "coords")), "flags"))
  {
    var s := SlimRisk(o);
    var tail1 := s[1..];
    var tail2 := s[2..];
    var tail3 := s[3..];
    assert s == [s[0]] + tail1 && tail1 == [s[1]] + tail2 && tail2 == [s[2]] + tail3 && tail3 == [s[3]] + [];
    forall key
      ensures Lookup(s, key) ==
        if key == "slim" then Some(s[0].1)
        else if key == "health" then Some(s[1].1)
        else if key == "score100" then Some(s[2].1)
        else if key == "errchain" then Some(s[3].1)
        else None
    {
      LookupCons("slim", s[0].1, tail1, key);
      LookupCons("health", s[1].1, tail2, key);
      LookupCons("score100", s[2].1, tail3, key);
      LookupCons("errchain", s[3].1, [], key);
    }
    var storage := AsDict(Get(AsDict(s[2].1), "storage_risk"));
    LookupTwo(storage[0].0, storage[0].1, storage[1].0, storage[1].1);
  }

  /** Slimming is idempotent, and its result carries the marker. */
  lemma SlimTwice(o: Fields)
    ensures SlimRisk(SlimRisk(o)) == SlimRisk(o) && IsMarked(SlimRisk(o))
  {
    SlimLookups(o);
    SlimLookups(SlimRisk(o));
  }

  // ---- text of a verdict ----

  datatype Codec = Codec(loads: string -> Option<Json>, compact: Json -> string)

  /** What was read from a text reads back after `_json_c`, and so does the slim form of a dict that was. */
  ghost predicate IsCodec(c: Codec) {
    forall t :: c.loads(t).Some? ==> ReadsBack(c, c.loads(t).value)
  }

  predicate ReadsBack(c: Codec, j: Json) {
    && c.loads(c.compact(j)) == Some(j)
    && (j.JObj? ==> c.loads(c.compact(JObj(SlimRisk(j.fields)))) == Some(JObj(SlimRisk(j.fields))))
  }

  /** Such codecs exist, even with a verdict that is readable and not slim. */
  lemma CodecsExist() returns (c: Codec, text: string)
    ensures IsCodec(c) && c.loads(text).Some? && c.loads(text).value.JObj? && !IsMarked(c.loads(text).value.fields)
  {
    var full: Fields := [("health", JInt(4))];
    var slim := SlimRisk(full);
    SlimTwice(full);
    assert Lookup(full, "slim") == None by { LookupCons("health", JInt(4), [], "slim"); }
    c := Codec(t => if t == "f" then Some(JObj(full)) else if t == "s" then Some(JObj(slim)) else None,
               j => if j == JObj(full) then "f" else if j == JObj(slim) then "s" else "");
    text := "f";
  }

  // ---- rows ----

  datatype Row = Row(id: nat, device: string, ts: nat, risk: Option<string>)

  /** The verdict a row holds, when its text is a JSON object. */
  function Verdict(c: Codec, row: Row): Option<Fields> {
    match row.risk
    case None => None
    case Some(t) =>
      match c.loads(t)
      case Some(JObj(o)) => Some(o)
      case _ => None
  }

  /** Nothing left to cut: slim already, or not readable as a verdict. */
  predicate Settled(c: Codec, row: Row) {
    Verdict(c, row).Some? ==> IsMarked(Verdict(c, row).value)
  }

  function Slimmed(c: Codec, row: Row): Row {
    if Settled(c, row) then row
    else row.(risk := Some(c.compact(JObj(SlimRisk(Verdict(c, row).value)))))
  }

  lemma SlimmedVerdict(c: Codec, row: Row)
    requires IsCodec(c)
    ensures Settled(c, Slimmed(c, row))
    ensures !Settled(c, row) ==> Verdict(c, Slimmed(c, row)) == Some(SlimRisk(Verdict(c, row).value))
    ensures Slimmed(c, row).id == row.id && Slimmed(c, row).device == row.device
  {
    if !Settled(c, row) {
      assert ReadsBack(c, c.loads(row.risk.value).value);
      SlimTwice(Verdict(c, row).value);
    }
  }

  /** Rows of one device. A table is in id order, so rows after a row are newer. */
  function Count(rows: seq<Row>, device: string): nat {
    if rows == [] then 0
    else (if rows[0].device == device then 1 else 0) + Count(rows[1..], device)
  }

  lemma {:induction false} CountPlus(a: seq<Row>, b: seq<Row>, device: string)
    ensures Count(a + b, device) == Count(a, device) + Count(b, device)
  {
    if a == [] {
      PlusEmpty(b);
    } else {
      TailOfPlus(a, b);
      CountPlus(a[1..], b, device);
    }
  }

  /** The whole pass: every row with ten or more newer rows of its device is slimmed. */
  function FullPass(c: Codec, rows: seq<Row>): (r: seq<Row>)
    ensures |r| == |rows|
  {
    if rows == [] then []
    else
      [if Count(rows[1..], rows[0].device) >= KEEP_FULL then Slimmed(c, rows[0]) else rows[0]]
      + FullPass(c, rows[1..])
  }

  /** Rows with at least ten newer ones are settled. Right after an insert, its device is owed one more. */
  predicate Tidy(c: Codec, rows: seq<Row>, owed: Option<string>) {
    rows == [] ||
    (&& (Count(rows[1..], rows[0].device) >= Limit(owed, rows[0].device) ==> Settled(c, rows[0]))
     && Tidy(c, rows[1..], owed))
  }

  function Limit(owed: Option<string>, device: string): nat {
    if owed == Some(device) then KEEP_FULL + 1 else KEEP_FULL
  }

  lemma {:induction false} TidyAt(c: Codec, rows: seq<Row>, i: nat)
    requires Tidy(c, rows, None) && i < |rows| && Count(rows[i + 1..], rows[i].device) >= KEEP_FULL
    ensures Settled(c, rows[i])
  {
    if i == 0 {
    } else {
      assert rows[1..][i..] == rows[i + 1..];
      TidyAt(c, rows[1..], i - 1);
    }
  }

  lemma {:induction false} CountFullPass(c: Codec, rows: seq<Row>, device: string)
    requires IsCodec(c)
    ensures Count(FullPass(c, rows), device) == Count(rows, device)
  {
    if rows == [] {
    } else {
      SlimmedVerdict(c, rows[0]);
      CountFullPass(c, rows[1..], device);
      ConsTail(FullPass(c, rows)[0], FullPass(c, rows[1..]));
    }
  }

  lemma {:induction false} FullPassIsTidy(c: Codec, rows: seq<Row>)
    requires IsCodec(c)
    ensures Tidy(c, FullPass(c, rows), None)
  {
    if rows == [] {
    } else {
      SlimmedVerdict(c, rows[0]);
      CountFullPass(c, rows[1..], rows[0].device);
      FullPassIsTidy(c, rows[1..]);
      ConsTail(FullPass(c, rows)[0], FullPass(c, rows[1..]));
    }
  }

  // ---- the statements of store_scores and of the age prune ----

  function Cap(rows: seq<Row>, device: string, retain: nat): seq<Row> {
    if rows == [] then []
    else if rows[0].device == device && Count(rows[1..], device) >= retain then Cap(rows[1..], device, retain)
    else [rows[0]] + Cap(rows[1..], device, retain)
  }

  /** The age prune spares the newest row of every device. */
  function AgePruned(rows: seq<Row>, cutoff: nat): seq<Row> {
    if rows == [] then []
    else if rows[0].ts < cutoff && Count(rows[1..], rows[0].device) > 0 then AgePruned(rows[1..], cutoff)
    else [rows[0]] + AgePruned(rows[1..], cutoff)
  }

  function WithoutDevice(rows: seq<Row>, device: string): seq<Row> {
    if rows == [] then []
    else if rows[0].device == device then WithoutDevice(rows[1..], device)
    else [rows[0]] + WithoutDevice(rows[1..], device)
  }

  /** `ORDER BY id DESC LIMIT 1 OFFSET 10` */
  function Boundary(rows: seq<Row>, device: string): (i: Option<nat>)
    ensures i.Some? ==> i.value < |rows|
  {
    if rows == [] then None
    else if rows[0].device == device && Count(rows[1..], device) == KEEP_FULL then Some(0)
    else
      match Boundary(rows[1..], device)
      case None => None
      case Some(i) => Some(i + 1)
  }

  function SlimBoundary(c: Codec, rows: seq<Row>, device: string): seq<Row> {
    match Boundary(rows, device)
    case None => rows
    case Some(i) => rows[i := Slimmed(c, rows[i])]
  }

  lemma {:induction false} FewRowsNothingToDo(c: Codec, rows: seq<Row>, device: string)
    requires Tidy(c, rows, Some(device)) && Count(rows, device) <= KEEP_FULL
    ensures FullPass(c, rows) == rows
  {
    if rows == [] {
    } else {
      FewRowsNothingToDo(c, rows[1..], device);
      HeadPlusTail(rows);
    }
  }

  /** One boundary row is all that the whole pass would change. */
  lemma {:induction false} BoundaryIsEnough(c: Codec, rows: seq<Row>, device: string)
    requires Tidy(c, rows, Some(device))
    ensures SlimBoundary(c, rows, device) == FullPass(c, rows)
  {
    if rows == [] {
    } else if rows[0].device == device && Count(rows[1..], device) == KEEP_FULL {
      FewRowsNothingToDo(c, rows[1..], device);
      HeadPlusTail(rows);
      assert rows[0 := Slimmed(c, rows[0])] == [Slimmed(c, rows[0])] + rows[1..];
    } else {
      BoundaryIsEnough(c, rows[1..], device);
      HeadPlusTail(rows);
      assert SlimBoundary(c, rows, device) == [rows[0]] + SlimBoundary(c, rows[1..], device);
    }
  }

  /** Some rows are gone, the others are untouched and in order. */
  predicate Sub(a: seq<Row>, b: seq<Row>)
    decreases |b|
  {
    if b == [] then a == []
    else (a != [] && a[0] == b[0] && Sub(a[1..], b[1..])) || Sub(a, b[1..])
  }

  lemma {:induction false} SubCount(a: seq<Row>, b: seq<Row>, device: string)
    requires Sub(a, b)
    ensures Count(a, device) <= Count(b, device)
    decreases |b|
  {
    if b == [] {
    } else if Sub(a, b[1..]) {
      SubCount(a, b[1..], device);
    } else {
      SubCount(a[1..], b[1..], device);
    }
  }

  /** Deleting rows, whichever they are, leaves the table tidy. */
  lemma {:induction false} DeletionKeepsTidy(c: Codec, a: seq<Row>, b: seq<Row>, owed: Option<string>)
    requires Sub(a, b) && Tidy(c, b, owed)
    ensures Tidy(c, a, owed)
    decreases |b|
  {
    if b == [] {
    } else if Sub(a, b[1..]) {
      DeletionKeepsTidy(c, a, b[1..], owed);
    } else {
      DeletionKeepsTidy(c, a[1..], b[1..], owed);
      SubCount(a[1..], b[1..], b[0].device);
    }
  }

  lemma {:induction false} CapIsSub(rows: seq<Row>, device: string, retain: nat)
    ensures Sub(Cap(rows, device, retain), rows)
  {
    if rows == [] {
    } else {
      CapIsSub(rows[1..], device, retain);
      ConsTail(rows[0], Cap(rows[1..], device, retain));
    }
  }

  lemma {:induction false} AgePrunedIsSub(rows: seq<Row>, cutoff: nat)
    ensures Sub(AgePruned(rows, cutoff), rows)
  {
    if rows == [] {
    } else {
      AgePrunedIsSub(rows[1..], cutoff);
      ConsTail(rows[0], AgePruned(rows[1..], cutoff));
    }
  }

  lemma {:induction false} WithoutDeviceIsSub(rows: seq<Row>, device: string)
    ensures Sub(WithoutDevice(rows, device), rows)
  {
    if rows == [] {
    } else {
      WithoutDeviceIsSub(rows[1..], device);
      ConsTail(rows[0], WithoutDevice(rows[1..], device));
    }
  }

  lemma {:induction false} InsertOwesOne(c: Codec, rows: seq<Row>, r: Row)
    requires Tidy(c, rows, None)
    ensures Tidy(c, rows + [r], Some(r.device))
  {
    if rows == [] {
      PlusEmpty([r]);
      assert [r][1..] == [];
    } else {
      TailOfPlus(rows, [r]);
      CountPlus(rows[1..], [r], rows[0].device);
      assert [r][1..] == [];
      InsertOwesOne(c, rows[1..], r);
    }
  }

  /** The table after one `store_scores`. */
  function Stored(c: Codec, rows: seq<Row>, r: Row, retain: nat): seq<Row> {
    SlimBoundary(c, Cap(rows + [r], r.device, retain), r.device)
  }

  /** Slimming the one boundary row gives what a pass over the whole table would give. */
  lemma StoredIsFullPass(c: Codec, rows: seq<Row>, r: Row, retain: nat)
    requires IsCodec(c) && Tidy(c, rows, None)
    ensures Stored(c, rows, r, retain) == FullPass(c, Cap(rows + [r], r.device, retain))
    ensures Tidy(c, Stored(c, rows, r, retain), None)
  {
    var capped := Cap(rows + [r], r.device, retain);
    InsertOwesOne(c, rows, r);
    CapIsSub(rows + [r], r.device, retain);
    DeletionKeepsTidy(c, capped, rows + [r], Some(r.device));
    BoundaryIsEnough(c, capped, r.device);
    FullPassIsTidy(c, capped);
  }

  class Table {
    const c: Codec
    var rows: seq<Row>
    var lastId: nat

    constructor (c: Codec)
      ensures this.c == c && rows == [] && lastId == 0
    {
      this.c := c;
      rows, lastId := [], 0;
    }

    /** `_slim_stale_scores`: 1 when it slimmed the boundary row. */
    method SlimStaleScores(device: string) returns (n: nat)
      modifies this`rows
      ensures rows == SlimBoundary(c, old(rows), device)
      ensures n == var at := Boundary(old(rows), device);
                   if at.Some? && !Settled(c, old(rows)[at.value]) then 1 else 0
    {
      var at := Boundary(rows, device);
      if at == None || rows[at.value].risk == None {
        return 0;
      }
      var row := rows[at.value];
      match c.loads(row.risk.value)
      case Some(JObj(o)) =>
        if IsMarked(o) {
          return 0;
        }
        rows := rows[at.value := row.(risk := Some(c.compact(JObj(SlimRisk(o)))))];
        n := 1;
      case _ =>
        n := 0;
    }

    /** Retention `retain` rows per device. On a tidy table the outcome is that of the whole pass. */
    method StoreScores(device: string, ts: nat, risk: Json, retain: nat)
      modifies this
      ensures lastId == old(lastId) + 1
      ensures var r := Row(lastId, device, ts, Some(c.compact(risk)));
        && rows == Stored(c, old(rows), r, retain)
        && (IsCodec(c) && Tidy(c, old(rows), None) ==>
              rows == FullPass(c, Cap(old(rows) + [r], device, retain)) && Tidy(c, rows, None))
    {
      lastId := lastId + 1;
      var r := Row(lastId, device, ts, Some(c.compact(risk)));
      ghost var before := rows;
      rows := rows + [r];
      rows := Cap(rows, device, retain);
      var _ := SlimStaleScores(device);
      if IsCodec(c) && Tidy(c, before, None) {
        StoredIsFullPass(c, before, r, retain);
      }
    }
  }

  // ---- whole runs ----

  datatype Step =
    | Store(row: Row)
    | AgePrune(cutoff: nat)
    | Forget(device: string)

  function Next(c: Codec, rows: seq<Row>, retain: nat, a: Step): seq<Row> {
    match a
    case Store(r) => Stored(c, rows, r, retain)
    case AgePrune(cutoff) => AgePruned(rows, cutoff)
    case Forget(device) => WithoutDevice(rows, device)
  }

  function Run(c: Codec, rows: seq<Row>, retain: nat, steps: seq<Step>): seq<Row>
    decreases |steps|
  {
    if steps == [] then rows
    else Next(c, Run(c, rows, retain, steps[..|steps| - 1]), retain, steps[|steps| - 1])
  }

  /** From a tidy table, and so from an empty one, every run of inserts, row caps, age prunes and
      device removals keeps every readable row with ten or more newer rows slim. */
  lemma {:induction false} RunIsTidy(c: Codec, rows: seq<Row>, retain: nat, steps: seq<Step>)
    requires IsCodec(c) && Tidy(c, rows, None)
    ensures Tidy(c, Run(c, rows, retain, steps), None)
    decreases |steps|
  {
    if steps == [] {
    } else {
      var n := |steps| - 1;
      RunIsTidy(c, rows, retain, steps[..n]);
      var was := Run(c, rows, retain, steps[..n]);
      match steps[n]
      case Store(r) => StoredIsFullPass(c, was, r, retain);
      case AgePrune(cutoff) =>
        AgePrunedIsSub(was, cutoff);
        DeletionKeepsTidy(c, AgePruned(was, cutoff), was, None);
      case Forget(device) =>
        WithoutDeviceIsSub(was, device);
        DeletionKeepsTidy(c, WithoutDevice(was, device), was, None);
    }
  }

  /** A row is as it was stored, or slim with a newer row of its device behind it. */
  predicate Genuine(c: Codec, rows: seq<Row>, stored: set<Row>) {
    rows == [] ||
    (&& (rows[0] in stored || (Count(rows[1..], rows[0].device) > 0 && IsSlimOf(c, rows[0], stored)))
     && Genuine(c, rows[1..], stored))
  }

  predicate IsSlimOf(c: Codec, row: Row, stored: set<Row>) {
    exists r :: r in stored && row == Slimmed(c, r)
  }

  function StoredRows(steps: seq<Step>): set<Row> {
    set a | a in steps && a.Store? :: a.row
  }

  lemma {:induction false} GenuineMore(c: Codec, rows: seq<Row>, stored: set<Row>, more: set<Row>)
    requires Genuine(c, rows, stored) && stored <= more
    ensures Genuine(c, rows, more)
  {
    if rows == [] {
    } else {
      GenuineMore(c, rows[1..], stored, more);
    }
  }

  lemma {:induction false} CapGenuine(c: Codec, rows: seq<Row>, stored: set<Row>, device: string, retain: nat)
    requires Genuine(c, rows, stored)
    ensures Genuine(c, Cap(rows, device, retain), stored)
    ensures Count(rows, device) <= retain ==> Count(Cap(rows, device, retain), device) == Count(rows, device)
    ensures forall d :: d != device ==> Count(Cap(rows, device, retain), d) == Count(rows, d)
  {
    if rows == [] {
    } else {
      CapGenuine(c, rows[1..], stored, device, retain);
      ConsTail(rows[0], Cap(rows[1..], device, retain));
    }
  }

  lemma {:induction false} AgePruneSparesNewest(rows: seq<Row>, cutoff: nat, device: string)
    ensures Count(rows, device) > 0 ==> Count(AgePruned(rows, cutoff), device) > 0
  {
    if rows == [] {
    } else {
      AgePruneSparesNewest(rows[1..], cutoff, device);
      ConsTail(rows[0], AgePruned(rows[1..], cutoff));
    }
  }

  lemma {:induction false} AgePruneGenuine(c: Codec, rows: seq<Row>, stored: set<Row>, cutoff: nat)
    requires Genuine(c, rows, stored)
    ensures Genuine(c, AgePruned(rows, cutoff), stored)
  {
    if rows == [] {
    } else {
      AgePruneGenuine(c, rows[1..], stored, cutoff);
      AgePruneSparesNewest(rows[1..], cutoff, rows[0].device);
      ConsTail(rows[0], AgePruned(rows[1..], cutoff));
    }
  }

  lemma {:induction false} ForgetGenuine(c: Codec, rows: seq<Row>, stored: set<Row>, device: string)
    requires Genuine(c, rows, stored)
    ensures Genuine(c, WithoutDevice(rows, device), stored)
    ensures forall d :: d != device ==> Count(WithoutDevice(rows, device), d) == Count(rows, d)
  {
    if rows == [] {
    } else {
      ForgetGenuine(c, rows[1..], stored, device);
      ConsTail(rows[0], WithoutDevice(rows[1..], device));
    }
  }

  lemma {:induction false} InsertGenuine(c: Codec, rows: seq<Row>, stored: set<Row>, r: Row)
    requires Genuine(c, rows, stored) && r in stored
    ensures Genuine(c, rows + [r], stored)
  {
    if rows == [] {
      PlusEmpty([r]);
      assert [r][1..] == [];
    } else {
      TailOfPlus(rows, [r]);
      CountPlus(rows[1..], [r], rows[0].device);
      InsertGenuine(c, rows[1..], stored, r);
    }
  }

  lemma SlimOfSlim(c: Codec, row: Row, stored: set<Row>)
    requires IsCodec(c) && (row in stored || IsSlimOf(c, row, stored))
    ensures IsSlimOf(c, Slimmed(c, row), stored)
  {
    if row !in stored {
      var r :| r in stored && row == Slimmed(c, r);
      SlimmedVerdict(c, r);
    }
  }

  lemma {:induction false} BoundaryGenuine(c: Codec, rows: seq<Row>, stored: set<Row>, device: string)
    requires IsCodec(c) && Genuine(c, rows, stored)
    ensures Genuine(c, SlimBoundary(c, rows, device), stored)
    ensures forall d :: Count(SlimBoundary(c, rows, device), d) == Count(rows, d)
  {
    hide Slimmed;
    hide IsSlimOf;
    if rows == [] {
    } else {
      SlimmedVerdict(c, rows[0]);
      HeadPlusTail(rows);
      if rows[0].device == device && Count(rows[1..], device) == KEEP_FULL {
        SlimOfSlim(c, rows[0], stored);
        assert rows[0 := Slimmed(c, rows[0])] == [Slimmed(c, rows[0])] + rows[1..];
        ConsTail(Slimmed(c, rows[0]), rows[1..]);
      } else {
        BoundaryGenuine(c, rows[1..], stored, device);
        ConsTail(rows[0], SlimBoundary(c, rows[1..], device));
        assert SlimBoundary(c, rows, device) == [rows[0]] + SlimBoundary(c, rows[1..], device);
      }
    }
  }

  /** No run rewrites a row other than by one slimming, and the newest row of a device, on which every
      reader of the full verdict relies, is always exactly the text that was stored. */
  lemma {:induction false} RunIsGenuine(c: Codec, retain: nat, steps: seq<Step>)
    requires IsCodec(c)
    ensures Genuine(c, Run(c, [], retain, steps), StoredRows(steps))
    decreases |steps|
  {
    if steps == [] {
    } else {
      var n := |steps| - 1;
      var was := Run(c, [], retain, steps[..n]);
      RunIsGenuine(c, retain, steps[..n]);
      assert forall a :: a in steps[..n] ==> a in steps;
      GenuineMore(c, was, StoredRows(steps[..n]), StoredRows(steps));
      match steps[n]
      case Store(r) =>
        assert steps[n] in steps;
        InsertGenuine(c, was, StoredRows(steps), r);
        CapGenuine(c, was + [r], StoredRows(steps), r.device, retain);
        BoundaryGenuine(c, Cap(was + [r], r.device, retain), StoredRows(steps), r.device);
      case AgePrune(cutoff) => AgePruneGenuine(c, was, StoredRows(steps), cutoff);
      case Forget(device) => ForgetGenuine(c, was, StoredRows(steps), device);
    }
  }

  lemma {:induction false} NewestIsVerbatim(c: Codec, rows: seq<Row>, stored: set<Row>, i: nat)
    requires Genuine(c, rows, stored) && i < |rows| && Count(rows[i + 1..], rows[i].device) == 0
    ensures rows[i] in stored
  {
    if i == 0 {
    } else {
      assert rows[1..][i..] == rows[i + 1..];
      NewestIsVerbatim(c, rows[1..], stored, i - 1);
    }
  }
}
