/** server/db.py, `_archive_aged_rows` and `prune_aged`: aged raw rows move into one text blob per
    device, UTC day and table before they are deleted. Compression is left out: a blob is its text. */
module Archive {
  import opened Wrappers
  import opened Sequences

  const DAY := 86400

  datatype Kind = Heartbeats | Events

  datatype Row = Row(kind: Kind, id: nat, device: Option<string>, at: nat, payload: string)

  /** `json.dumps` of a row and `json.loads` of a line. */
  datatype Codec = Codec(dump: Row -> string, load: string -> Row)

  ghost predicate IsCodec(c: Codec) {
    forall r :: c.load(c.dump(r)) == r && '\n' !in c.dump(r)
  }

  // ---- text of a blob ----

  function Join(lines: seq<string>): string
    requires lines != []
  {
    if |lines| == 1 then lines[0] else lines[0] + "\n" + Join(lines[1..])
  }

  function NewlineAt(t: string): (i: nat)
    ensures i <= |t| && '\n' !in t[..i] && (i < |t| ==> t[i] == '\n')
  {
    if t == "" || t[0] == '\n' then 0
    else
      var i := NewlineAt(t[1..]) + 1;
      assert t[..i] == [t[0]] + t[1..][..i - 1];
      i
  }

  /** `split("\n")` */
  function Split(t: string): seq<string>
    decreases |t|
  {
    var i := NewlineAt(t);
    if i == |t| then [t] else [t[..i]] + Split(t[i + 1..])
  }

  lemma NewlineIsAt(t: string, i: nat)
    requires i <= |t| && '\n' !in t[..i] && (i < |t| ==> t[i] == '\n')
    ensures NewlineAt(t) == i
  {
    var j := NewlineAt(t);
    assert forall k :: 0 <= k < i ==> t[k] in t[..i];
    assert forall k :: 0 <= k < j ==> t[k] in t[..j];
  }

  /** The blob round trip, with no condition on separators other than the newline. */
  lemma {:induction false} SplitJoin(lines: seq<string>)
    requires lines != [] && forall l :: l in lines ==> '\n' !in l
    ensures Split(Join(lines)) == lines
  {
    var t := Join(lines);
    assert lines[0] in lines;
    if |lines| == 1 {
      assert t[..|t|] == t;
      NewlineIsAt(t, |t|);
    } else {
      SplitJoin(lines[1..]);
      assert t[..|lines[0]|] == lines[0] && t[|lines[0]| + 1..] == Join(lines[1..]);
      NewlineIsAt(t, |lines[0]|);
      HeadPlusTail(lines);
    }
  }

  // ---- rows and groups ----

  datatype Key = Key(device: string, day: nat, kind: Kind)

  function KeyOf(r: Row): Key {
    Key(r.device.GetOr(""), r.at / DAY, r.kind)
  }

  function Aged(rows: seq<Row>, kind: Kind, cutoff: nat): seq<Row> {
    if rows == [] then []
    else if rows[0].kind == kind && rows[0].at < cutoff then [rows[0]] + Aged(rows[1..], kind, cutoff)
    else Aged(rows[1..], kind, cutoff)
  }

  function Kept(rows: seq<Row>, kind: Kind, cutoff: nat): seq<Row> {
    if rows == [] then []
    else if rows[0].kind == kind && rows[0].at < cutoff then Kept(rows[1..], kind, cutoff)
    else [rows[0]] + Kept(rows[1..], kind, cutoff)
  }

  function OfKey(rows: seq<Row>, key: Key): seq<Row> {
    if rows == [] then []
    else if KeyOf(rows[0]) == key then [rows[0]] + OfKey(rows[1..], key)
    else OfKey(rows[1..], key)
  }

  lemma {:induction false} OfKeyMembers(rows: seq<Row>, key: Key)
    ensures forall r :: r in OfKey(rows, key) <==> r in rows && KeyOf(r) == key
  {
    if rows == [] {
    } else {
      OfKeyMembers(rows[1..], key);
      HeadPlusTail(rows);
    }
  }

  lemma {:induction false} AgedMembers(rows: seq<Row>, kind: Kind, cutoff: nat)
    ensures forall r :: r in Aged(rows, kind, cutoff) <==> r in rows && r.kind == kind && r.at < cutoff
  {
    if rows == [] {
    } else {
      AgedMembers(rows[1..], kind, cutoff);
      HeadPlusTail(rows);
    }
  }

  lemma {:induction false} SplitByAge(rows: seq<Row>, kind: Kind, cutoff: nat, key: Key)
    ensures multiset(OfKey(rows, key)) ==
              multiset(OfKey(Kept(rows, kind, cutoff), key)) + multiset(OfKey(Aged(rows, kind, cutoff), key))
  {
    if rows == [] {
    } else {
      SplitByAge(rows[1..], kind, cutoff, key);
      ConsTail(rows[0], Kept(rows[1..], kind, cutoff));
      ConsTail(rows[0], Aged(rows[1..], kind, cutoff));
    }
  }

  lemma {:induction false} OfKeyAppend(rows: seq<Row>, r: Row, key: Key)
    ensures OfKey(rows + [r], key) == OfKey(rows, key) + (if KeyOf(r) == key then [r] else [])
  {
    if rows == [] {
      PlusEmpty([r]);
      assert OfKey([r][1..], key) == [];
    } else {
      TailOfPlus(rows, [r]);
      OfKeyAppend(rows[1..], r, key);
    }
  }

  // ---- the archive ----

  datatype Entry = Entry(rowsN: nat, blob: string)

  type Blobs = map<Key, Entry>

  datatype Store = Store(live: seq<Row>, archive: Blobs)

  function DumpAll(c: Codec, rows: seq<Row>): seq<string> {
    seq(|rows|, i requires 0 <= i < |rows| => c.dump(rows[i]))
  }

  function LoadAll(c: Codec, lines: seq<string>): seq<Row> {
    seq(|lines|, i requires 0 <= i < |lines| => c.load(lines[i]))
  }

  /** What `get_raw_archive` decodes for one day. */
  function Decoded(c: Codec, a: Blobs, key: Key): seq<Row> {
    if key in a then LoadAll(c, Split(a[key].blob)) else []
  }

  function Lines(c: Codec, a: Blobs, key: Key, items: seq<Row>): seq<string> {
    (if key in a then Split(a[key].blob) else []) + DumpAll(c, items)
  }

  function Grown(c: Codec, a: Blobs, key: Key, items: seq<Row>): Entry
    requires items != []
  {
    var lines := Lines(c, a, key, items);
    Entry(|lines|, Join(lines))
  }

  function Groups(rows: seq<Row>, kind: Kind, cutoff: nat): set<Key> {
    set r | r in Aged(rows, kind, cutoff) :: KeyOf(r)
  }

  /** Blobs written by this code: lines without newlines, counted. */
  ghost predicate Valid(c: Codec, a: Blobs) {
    forall key :: key in a ==>
      exists rows :: rows != [] && a[key] == Entry(|rows|, Join(DumpAll(c, rows)))
  }

  lemma BlobDecodes(c: Codec, a: Blobs, key: Key, rows: seq<Row>)
    requires IsCodec(c) && key in a && rows != [] && a[key] == Entry(|rows|, Join(DumpAll(c, rows)))
    ensures Split(a[key].blob) == DumpAll(c, rows) && Decoded(c, a, key) == rows
  {
    SplitJoin(DumpAll(c, rows));
    assert LoadAll(c, DumpAll(c, rows)) == rows;
  }

  lemma GrownDecodes(c: Codec, a: Blobs, key: Key, items: seq<Row>)
    requires IsCodec(c) && Valid(c, a) && items != []
    ensures var rows := Decoded(c, a, key) + items;
      && Grown(c, a, key, items) == Entry(|rows|, Join(DumpAll(c, rows)))
      && Decoded(c, a[key := Grown(c, a, key, items)], key) == rows
  {
    var rows := Decoded(c, a, key) + items;
    if key in a {
      var before :| before != [] && a[key] == Entry(|before|, Join(DumpAll(c, before)));
      BlobDecodes(c, a, key, before);
      assert DumpAll(c, before) + DumpAll(c, items) == DumpAll(c, rows);
    } else {
      PlusEmpty(DumpAll(c, items));
      PlusEmpty(items);
    }
    BlobDecodes(c, a[key := Grown(c, a, key, items)], key, rows);
  }

  /** The whole archive after one call of `_archive_aged_rows`, group by group. */
  ghost predicate ArchivedInto(c: Codec, a: Blobs, a': Blobs, live: seq<Row>, kind: Kind, cutoff: nat,
                               groups: set<Key>)
  {
    && Valid(c, a')
    && forall key :: Decoded(c, a', key) ==
         Decoded(c, a, key) + (if key in groups then OfKey(Aged(live, kind, cutoff), key) else [])
  }

  /** The archived days of one device and table, from `since` on. */
  function DaysFrom(a: Blobs, device: string, kind: Kind, since: nat): set<nat> {
    set key | key in a && key.device == device && key.kind == kind && key.day >= since :: key.day
  }

  lemma DaysFromMember(a: Blobs, device: string, kind: Kind, since: nat, d: nat)
    ensures d in DaysFrom(a, device, kind, since) <==> d >= since && Key(device, d, kind) in a
  {
    if d >= since && Key(device, d, kind) in a {
      assert Key(device, d, kind).day == d;
    }
  }

  lemma NextDay(c: Codec, a: Blobs, device: string, kind: Kind, since: nat, until: nat, day: nat)
    requires since <= until && day in DaysFrom(a, device, kind, until)
    requires forall d :: d in DaysFrom(a, device, kind, until) ==> day <= d
    ensures until <= day && Key(device, day, kind) in a
    ensures Days(c, a, device, kind, since, day + 1) ==
              Days(c, a, device, kind, since, until) + LoadAll(c, Split(a[Key(device, day, kind)].blob))
    ensures DaysFrom(a, device, kind, day + 1) == DaysFrom(a, device, kind, until) - {day}
  {
    hide DaysFrom;
    DaysFromMember(a, device, kind, until, day);
    DaysSkip(c, a, device, kind, since, until, day);
    forall d: nat
      ensures d in DaysFrom(a, device, kind, day + 1) <==> d in DaysFrom(a, device, kind, until) - {day}
    {
      DaysFromMember(a, device, kind, until, d);
      DaysFromMember(a, device, kind, day + 1, d);
    }
  }

  /** The decoded rows of the days from `since` up to `until`, in day order. */
  function Days(c: Codec, a: Blobs, device: string, kind: Kind, since: nat, until: nat): seq<Row>
    decreases until
  {
    if until <= since then []
    else Days(c, a, device, kind, since, until - 1) + Decoded(c, a, Key(device, until - 1, kind))
  }

  lemma {:induction false} DaysSkip(c: Codec, a: Blobs, device: string, kind: Kind, since: nat, until: nat, later: nat)
    requires since <= until <= later
    requires forall d :: d in DaysFrom(a, device, kind, until) ==> later <= d
    ensures Days(c, a, device, kind, since, later) == Days(c, a, device, kind, since, until)
    decreases later
  {
    hide DaysFrom;
    if until == later {
    } else {
      DaysSkip(c, a, device, kind, since, until, later - 1);
      DaysFromMember(a, device, kind, until, later - 1);
      PlusEmpty(Days(c, a, device, kind, since, later - 1));
    }
  }

  method LeastDay(days: set<nat>) returns (least: nat)
    requires days != {}
    ensures least in days && forall d :: d in days ==> least <= d
  {
    least :| least in days;
    var rest := days - {least};
    while rest != {}
      invariant rest <= days && least in days
      invariant forall d :: d in days ==> d in rest || least <= d
      decreases rest
    {
      var d :| d in rest;
      if d < least {
        least := d;
      }
      rest := rest - {d};
    }
  }

  class Database {
    const c: Codec
    var live: seq<Row>
    var archive: Blobs

    constructor (c: Codec)
      ensures this.c == c && live == [] && archive == map[]
    {
      this.c := c;
      live, archive := [], map[];
    }

    method Insert(r: Row)
      modifies this`live
      ensures live == old(live) + [r]
    {
      live := live + [r];
    }

    /** Returns how many rows were archived. */
    method ArchiveAgedRows(kind: Kind, cutoff: nat) returns (total: nat)
      requires IsCodec(c) && Valid(c, archive)
      modifies this`archive
      ensures ArchivedInto(c, old(archive), archive, live, kind, cutoff, Groups(live, kind, cutoff))
      ensures total == |Aged(live, kind, cutoff)|
    {
      var left := Groups(live, kind, cutoff);
      ghost var done: set<Key> := {};
      total := 0;
      NoGroups(c, archive, live, kind, cutoff);
      OutsideNothing(Aged(live, kind, cutoff), {});
      while left != {}
        invariant done !! left && done + left == Groups(live, kind, cutoff)
        invariant ArchivedInto(c, old(archive), archive, live, kind, cutoff, done)
        invariant total + |Outside(Aged(live, kind, cutoff), done)| == |Aged(live, kind, cutoff)|
        decreases left
      {
        var key :| key in left;
        var items := OfKey(Aged(live, kind, cutoff), key);
        GroupHasItems(live, kind, cutoff, key);
        OneMoreGroup(c, old(archive), archive, live, kind, cutoff, done, key);
        OutsideOneMore(Aged(live, kind, cutoff), done, key);
        total := total + |items|;
        archive := archive[key := Grown(c, archive, key, items)];
        left, done := left - {key}, done + {key};
      }
      assert done == Groups(live, kind, cutoff);
      OutsideNothing(Aged(live, kind, cutoff), done);
    }

    /** One table's leg of `prune_aged`: archive, then delete, in one transaction. */
    method PruneTable(kind: Kind, cutoff: nat)
      requires IsCodec(c) && Valid(c, archive)
      modifies this
      ensures Valid(c, archive)
      ensures forall key ::
                Decoded(c, archive, key) == Decoded(c, old(archive), key) + OfKey(Aged(old(live), kind, cutoff), key)
      ensures live == Kept(old(live), kind, cutoff)
    {
      var _ := ArchiveAgedRows(kind, cutoff);
      forall key | key !in Groups(live, kind, cutoff)
        ensures OfKey(Aged(live, kind, cutoff), key) == []
      {
        NoItemsOutsideGroups(live, kind, cutoff, key);
      }
      live := Kept(live, kind, cutoff);
    }

    /** The archive's own age. */
    method DropArchive(beforeDay: nat)
      requires Valid(c, archive)
      modifies this`archive
      ensures Valid(c, archive)
      ensures forall key ::
                Decoded(c, archive, key) == if key.day < beforeDay then [] else Decoded(c, old(archive), key)
    {
      archive := map key | key in archive && key.day >= beforeDay :: archive[key];
    }

    /** Blobs in day order, each split on the newline and loaded line by line. */
    method GetRawArchive(device: string, kind: Kind, sinceDay: nat) returns (out: seq<Row>, toDay: nat)
      ensures DaysFrom(archive, device, kind, toDay) == {}
      ensures sinceDay <= toDay && out == Days(c, archive, device, kind, sinceDay, toDay)
    {
      out, toDay := [], sinceDay;
      var left := DaysFrom(archive, device, kind, sinceDay);
      while left != {}
        invariant left == DaysFrom(archive, device, kind, toDay)
        invariant sinceDay <= toDay && out == Days(c, archive, device, kind, sinceDay, toDay)
        decreases left
      {
        var day := LeastDay(left);
        NextDay(c, archive, device, kind, sinceDay, toDay, day);
        out := out + LoadAll(c, Split(archive[Key(device, day, kind)].blob));
        left, toDay := left - {day}, day + 1;
      }
    }
  }

  lemma NoGroups(c: Codec, a: Blobs, live: seq<Row>, kind: Kind, cutoff: nat)
    requires Valid(c, a)
    ensures ArchivedInto(c, a, a, live, kind, cutoff, {})
  {
    forall key ensures Decoded(c, a, key) + [] == Decoded(c, a, key) {
      PlusEmpty(Decoded(c, a, key));
    }
  }

  lemma GroupHasItems(live: seq<Row>, kind: Kind, cutoff: nat, key: Key)
    requires key in Groups(live, kind, cutoff)
    ensures OfKey(Aged(live, kind, cutoff), key) != []
  {
    OfKeyMembers(Aged(live, kind, cutoff), key);
    var r :| r in Aged(live, kind, cutoff) && KeyOf(r) == key;
    assert r in OfKey(Aged(live, kind, cutoff), key);
  }

  lemma NoItemsOutsideGroups(live: seq<Row>, kind: Kind, cutoff: nat, key: Key)
    requires key !in Groups(live, kind, cutoff)
    ensures OfKey(Aged(live, kind, cutoff), key) == []
  {
    var aged := Aged(live, kind, cutoff);
    OfKeyMembers(aged, key);
    forall r | r in aged
      ensures KeyOf(r) != key
    {
      assert KeyOf(r) in Groups(live, kind, cutoff);
    }
    NoMembers(OfKey(aged, key));
  }

  /** The rows whose group has not been handled yet. */
  function Outside(rows: seq<Row>, done: set<Key>): seq<Row> {
    if rows == [] then []
    else if KeyOf(rows[0]) in done then Outside(rows[1..], done)
    else [rows[0]] + Outside(rows[1..], done)
  }

  lemma {:induction false} OutsideOneMore(rows: seq<Row>, done: set<Key>, key: Key)
    requires key !in done
    ensures |Outside(rows, done)| == |Outside(rows, done + {key})| + |OfKey(rows, key)|
  {
    if rows == [] {
    } else {
      OutsideOneMore(rows[1..], done, key);
    }
  }

  lemma {:induction false} OutsideNothing(rows: seq<Row>, done: set<Key>)
    ensures (forall r :: r in rows ==> KeyOf(r) !in done) ==> Outside(rows, done) == rows
    ensures (forall r :: r in rows ==> KeyOf(r) in done) ==> Outside(rows, done) == []
  {
    if rows == [] {
    } else {
      OutsideNothing(rows[1..], done);
      HeadPlusTail(rows);
      assert rows[0] in rows;
    }
  }

  lemma OneMoreGroup(c: Codec, a: Blobs, a': Blobs, live: seq<Row>, kind: Kind, cutoff: nat, done: set<Key>, key: Key)
    requires IsCodec(c) && ArchivedInto(c, a, a', live, kind, cutoff, done) && key !in done
    requires OfKey(Aged(live, kind, cutoff), key) != []
    ensures ArchivedInto(c, a, a'[key := Grown(c, a', key, OfKey(Aged(live, kind, cutoff), key))], live, kind,
                         cutoff, done + {key})
  {
    var items := OfKey(Aged(live, kind, cutoff), key);
    GrownDecodes(c, a', key, items);
    var a'' := a'[key := Grown(c, a', key, items)];
    PlusEmpty(Decoded(c, a, key));
    forall k ensures Decoded(c, a'', k) ==
        Decoded(c, a, k) + (if k in done + {key} then OfKey(Aged(live, kind, cutoff), k) else [])
    {
      assert Decoded(c, a', k) == Decoded(c, a, k) + (if k in done then OfKey(Aged(live, kind, cutoff), k) else []);
    }
  }

  // ---- conservation over runs ----

  /** Live and archived rows of one group together. */
  ghost function Total(c: Codec, s: Store, key: Key): multiset<Row> {
    multiset(OfKey(s.live, key)) + multiset(Decoded(c, s.archive, key))
  }

  datatype Step =
    | Insert(row: Row)
    | Evict(i: nat)
    | Prune(kind: Kind, cutoff: nat)
    | DropArchive(beforeDay: nat)

  /** What the methods above promise of one step. */
  ghost predicate Next(c: Codec, s: Store, a: Step, s': Store) {
    && Valid(c, s'.archive)
    && match a
       case Insert(r) => s' == s.(live := s.live + [r])
       case Evict(i) => i < |s.live| && s' == s.(live := s.live[..i] + s.live[i + 1..])
       case Prune(kind, cutoff) =>
         && s'.live == Kept(s.live, kind, cutoff)
         && forall key ::
              Decoded(c, s'.archive, key) == Decoded(c, s.archive, key) + OfKey(Aged(s.live, kind, cutoff), key)
       case DropArchive(beforeDay) =>
         && s'.live == s.live
         && forall key :: Decoded(c, s'.archive, key) == if key.day < beforeDay then [] else Decoded(c, s.archive, key)
  }

  ghost predicate IsRun(c: Codec, states: seq<Store>, steps: seq<Step>) {
    && |states| == |steps| + 1
    && states[0] == Store([], map[])
    && forall i :: 0 <= i < |steps| ==> Next(c, states[i], steps[i], states[i + 1])
  }

  function Inserted(steps: seq<Step>, key: Key): multiset<Row> {
    if steps == [] then multiset{}
    else
      Inserted(steps[..|steps| - 1], key) + InsertedBy(steps[|steps| - 1], key)
  }

  /** What the row caps deleted: those rows go without being archived. */
  ghost function Evicted(c: Codec, states: seq<Store>, steps: seq<Step>, key: Key): multiset<Row>
    requires IsRun(c, states, steps)
    decreases |steps|
  {
    if steps == [] then multiset{}
    else
      var n := |steps| - 1;
      Evicted(c, states[..n + 1], steps[..n], key) + EvictedBy(states[n], steps[n], key)
  }

  function EvictedBy(s: Store, a: Step, key: Key): multiset<Row> {
    if a.Evict? && a.i < |s.live| && KeyOf(s.live[a.i]) == key then multiset{s.live[a.i]} else multiset{}
  }

  function InsertedBy(a: Step, key: Key): multiset<Row> {
    if a.Insert? && KeyOf(a.row) == key then multiset{a.row} else multiset{}
  }

  lemma {:induction false} OfKeyRemove(rows: seq<Row>, i: nat, key: Key)
    requires i < |rows|
    ensures multiset(OfKey(rows, key)) ==
      multiset(OfKey(rows[..i] + rows[i + 1..], key))
          + (if KeyOf(rows[i]) == key then multiset{rows[i]} else multiset{})
  {
    if i == 0 {
      assert rows[..0] + rows[1..] == rows[1..];
    } else {
      OfKeyRemove(rows[1..], i - 1, key);
      var rest := rows[..i] + rows[i + 1..];
      assert rest[0] == rows[0] && rest[1..] == rows[1..][..i - 1] + rows[1..][i..];
    }
  }

  lemma StepConserves(c: Codec, s: Store, a: Step, s': Store, key: Key)
    requires Next(c, s, a, s') && (a.DropArchive? ==> key.day >= a.beforeDay)
    ensures Total(c, s', key) + EvictedBy(s, a, key) == Total(c, s, key) + InsertedBy(a, key)
  {
    hide Valid;
    hide Decoded;
    match a
    case Insert(r) => OfKeyAppend(s.live, r, key);
    case Evict(i) => OfKeyRemove(s.live, i, key);
    case Prune(kind, cutoff) =>
      SplitByAge(s.live, kind, cutoff, key);
      assert Decoded(c, s'.archive, key) == Decoded(c, s.archive, key) + OfKey(Aged(s.live, kind, cutoff), key);
    case DropArchive(beforeDay) => assert Decoded(c, s'.archive, key) == Decoded(c, s.archive, key);
  }

  /** Over any run of inserts and prunes, with any cutoffs and days archived in several parts, the live
      and archived rows of a group are exactly the inserted ones less those a row cap deleted, each
      once, until the archive's own age drops the day. */
  lemma {:induction false} RowsAreConserved(c: Codec, states: seq<Store>, steps: seq<Step>, key: Key)
    requires IsRun(c, states, steps)
    requires forall i :: 0 <= i < |steps| && steps[i].DropArchive? ==> key.day >= steps[i].beforeDay
    ensures Total(c, states[|steps|], key) + Evicted(c, states, steps, key) == Inserted(steps, key)
    decreases |steps|
  {
    hide Next;
    hide Total;
    hide EvictedBy;
    if steps == [] {
      EmptyStore(c, key);
    } else {
      var n := |steps| - 1;
      RowsAreConserved(c, states[..n + 1], steps[..n], key);
      StepConserves(c, states[n], steps[n], states[n + 1], key);
      Balance(Total(c, states[n], key), Evicted(c, states[..n + 1], steps[..n], key), Inserted(steps[..n], key),
              Total(c, states[n + 1], key), EvictedBy(states[n], steps[n], key), InsertedBy(steps[n], key));
    }
  }

  lemma Balance<T>(t: multiset<T>, e: multiset<T>, i: multiset<T>, t': multiset<T>, e': multiset<T>, i': multiset<T>)
    requires t + e == i && t' + e' == t + i'
    ensures t' + (e + e') == i + i'
  {
    assert t' + (e + e') == (t' + e') + e;
    assert i + i' == (t + i') + e;
  }

  lemma EmptyStore(c: Codec, key: Key)
    ensures Total(c, Store([], map[]), key) == multiset{}
  {}

  /** A row inserted once is held at most once: never live and archived, never archived twice. */
  lemma NoRowTwice(c: Codec, states: seq<Store>, steps: seq<Step>, r: Row)
    requires IsRun(c, states, steps)
    requires forall i :: 0 <= i < |steps| && steps[i].DropArchive? ==> KeyOf(r).day >= steps[i].beforeDay
    requires Inserted(steps, KeyOf(r))[r] <= 1
    ensures Total(c, states[|steps|], KeyOf(r))[r] <= 1
  {
    RowsAreConserved(c, states, steps, KeyOf(r));
  }

  /** `rows_n` is the number of rows that a blob decodes to. */
  lemma RowsNIsExact(c: Codec, a: Blobs, key: Key)
    requires IsCodec(c) && Valid(c, a) && key in a
    ensures a[key].rowsN == |Decoded(c, a, key)| > 0
  {
    var rows :| rows != [] && a[key] == Entry(|rows|, Join(DumpAll(c, rows)));
    BlobDecodes(c, a, key, rows);
  }
}
