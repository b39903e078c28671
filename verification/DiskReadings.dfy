/** server/db.py, `store_disk_readings` and `_evict_inactive_disk_keys`: SMART readings of one device, whose
    disk keys come from the envelope and must not grow without bound. */
module DiskReadings {
  import opened Wrappers
  import opened Sequences

  const MAX_KEYS := 32
  const ACTIVE_DAYS := 90
  const DAY := 86400

  /** Disk keys, numbered in their sort order. */
  type Key = nat

  datatype Row = Row(key: Key, at: int, payload: string)

  datatype Disk = Disk(key: Key, payload: string)

  // ---- the table of one device, in id order ----

  function History(rows: seq<Row>, key: Key): seq<Row> {
    if rows == [] then []
    else if rows[0].key == key then [rows[0]] + History(rows[1..], key)
    else History(rows[1..], key)
  }

  function Keys(rows: seq<Row>): set<Key> {
    set r | r in rows :: r.key
  }

  /** Keys with a reading inside the activity window. */
  function Active(rows: seq<Row>, since: int): set<Key> {
    set r | r in rows && r.at >= since :: r.key
  }

  predicate IsActive(h: seq<Row>, since: int) {
    exists r :: r in h && r.at >= since
  }

  function LastN(h: seq<Row>, n: nat): seq<Row> {
    if |h| <= n then h else h[|h| - n..]
  }

  /** `DELETE ... WHERE disk_key=? AND id NOT IN (... ORDER BY id DESC LIMIT ?)` */
  function Capped(rows: seq<Row>, key: Key, retain: nat): seq<Row> {
    if rows == [] then []
    else if rows[0].key == key && |History(rows[1..], key)| >= retain then Capped(rows[1..], key, retain)
    else [rows[0]] + Capped(rows[1..], key, retain)
  }

  /** `DELETE ... HAVING MAX(received_at) < ?`: only rows of the given keys survive. */
  function Only(rows: seq<Row>, keys: set<Key>): seq<Row> {
    if rows == [] then []
    else if rows[0].key in keys then [rows[0]] + Only(rows[1..], keys)
    else Only(rows[1..], keys)
  }

  lemma {:induction false} HistoryMembers(rows: seq<Row>, key: Key)
    ensures forall r :: r in History(rows, key) <==> r in rows && r.key == key
  {
    if rows == [] {
    } else {
      HistoryMembers(rows[1..], key);
      HeadPlusTail(rows);
    }
  }

  lemma HistoryOfKeys(rows: seq<Row>, key: Key, since: int)
    ensures key in Keys(rows) <==> History(rows, key) != []
    ensures key in Active(rows, since) <==> IsActive(History(rows, key), since)
  {
    var h := History(rows, key);
    HistoryMembers(rows, key);
    NoMembers(h);
    assert h != [] ==> h[0] in h;
  }

  lemma {:induction false} HistoryPlus(a: seq<Row>, b: seq<Row>, key: Key)
    ensures History(a + b, key) == History(a, key) + History(b, key)
  {
    if a == [] {
      PlusEmpty(b);
      PlusEmpty(History(b, key));
    } else {
      TailOfPlus(a, b);
      HistoryPlus(a[1..], b, key);
    }
  }

  lemma {:induction false} CappedHistory(rows: seq<Row>, key: Key, retain: nat, k: Key)
    ensures History(Capped(rows, key, retain), k) ==
              if k == key then LastN(History(rows, k), retain) else History(rows, k)
  {
    if rows == [] {
    } else {
      CappedHistory(rows[1..], key, retain, k);
      ConsTail(rows[0], Capped(rows[1..], key, retain));
    }
  }

  lemma {:induction false} OnlyHistory(rows: seq<Row>, keys: set<Key>, k: Key)
    ensures History(Only(rows, keys), k) == if k in keys then History(rows, k) else []
  {
    if rows == [] {
    } else {
      OnlyHistory(rows[1..], keys, k);
      ConsTail(rows[0], Only(rows[1..], keys));
    }
  }

  /** Eviction, key by key: a key keeps all of its rows if one is inside the window, and none otherwise. */
  lemma EvictedHistories(rows: seq<Row>, since: int)
    ensures forall key :: History(Only(rows, Active(rows, since)), key) ==
              if IsActive(History(rows, key), since) then History(rows, key) else []
  {
    forall key
      ensures History(Only(rows, Active(rows, since)), key) ==
                if IsActive(History(rows, key), since) then History(rows, key) else []
    {
      OnlyHistory(rows, Active(rows, since), key);
      HistoryOfKeys(rows, key, since);
    }
  }

  // ---- which new keys are turned away ----

  function Below(keys: set<Key>, k: Key): set<Key> {
    set x | x in keys && x < k
  }

  /** `set(sorted(new)[allowed:])` */
  function Blocked(newcomers: set<Key>, allowed: nat): set<Key> {
    set k | k in newcomers && |Below(newcomers, k)| >= allowed
  }

  function Max(s: set<Key>): (m: Key)
    requires s != {}
    ensures m in s && forall x :: x in s ==> x <= m
  {
    MaxExists(s);
    var m :| m in s && forall x :: x in s ==> x <= m;
    m
  }

  lemma {:induction false} MaxExists(s: set<Key>)
    requires s != {}
    ensures exists m :: m in s && forall x :: x in s ==> x <= m
    decreases |s|
  {
    var k :| k in s;
    if s == {k} {
    } else {
      var rest := s - {k};
      assert |rest| < |s|;
      MaxExists(rest);
      var m :| m in rest && forall x :: x in rest ==> x <= m;
      var top := if k <= m then m else k;
      forall x | x in s
        ensures x <= top
      {
        assert x == k || x in rest;
      }
      assert top in s;
    }
  }

  lemma LargestLast(keys: set<Key>, m: Key, allowed: nat)
    requires m in keys && forall x :: x in keys ==> x <= m
    ensures Blocked(keys, allowed) - {m} == Blocked(keys - {m}, allowed)
    ensures m in Blocked(keys, allowed) <==> |keys - {m}| >= allowed
  {
    assert Below(keys, m) == keys - {m};
    forall k | k in keys - {m}
      ensures Below(keys, k) == Below(keys - {m}, k)
    {
    }
  }

  /** Exactly as many new keys pass as are allowed. */
  lemma {:induction false} AllowedCount(keys: set<Key>, allowed: nat)
    ensures |keys - Blocked(keys, allowed)| == if |keys| < allowed then |keys| else allowed
    decreases |keys|
  {
    hide Blocked;
    if keys == {} {
      assert keys - Blocked(keys, allowed) == {};
    } else {
      var m := Max(keys);
      var rest := keys - {m};
      AllowedCount(rest, allowed);
      LargestLast(keys, m, allowed);
      var passed := rest - Blocked(rest, allowed);
      if |rest| >= allowed {
        assert keys - Blocked(keys, allowed) == passed;
      } else {
        assert keys - Blocked(keys, allowed) == passed + {m};
      }
    }
  }

  // ---- one call ----

  function Since(now: int): int {
    now - ACTIVE_DAYS * DAY
  }

  /** Rows of the envelope: entries that are not objects are skipped. */
  function Rows(storage: seq<Option<Disk>>, at: int): seq<Row> {
    if storage == [] then []
    else if storage[0].Some? then [Row(storage[0].value.key, at, storage[0].value.payload)] + Rows(storage[1..], at)
    else Rows(storage[1..], at)
  }

  function Fresh(rows: seq<Row>, incoming: seq<Row>, since: int): set<Key> {
    Keys(incoming) - Active(rows, since)
  }

  function Refused(rows: seq<Row>, incoming: seq<Row>, since: int): set<Key> {
    var active := |Active(rows, since)|;
    Blocked(Fresh(rows, incoming, since), if active < MAX_KEYS then MAX_KEYS - active else 0)
  }

  /** One key's rows after the call. */
  function NextHistory(rows: seq<Row>, incoming: seq<Row>, since: int, retain: nat, key: Key): seq<Row> {
    var h :=
      if key in Keys(incoming) - Refused(rows, incoming, since)
      then LastN(History(rows, key) + History(incoming, key), retain)
      else History(rows, key);
    if Fresh(rows, incoming, since) != {} && !IsActive(h, since) then [] else h
  }

  ghost predicate Next(rows: seq<Row>, incoming: seq<Row>, since: int, retain: nat, rows': seq<Row>) {
    forall key :: History(rows', key) == NextHistory(rows, incoming, since, retain, key)
  }

  /** Keys in `done` have had their row cap applied to `rows`. */
  ghost predicate CappedFor(rows: seq<Row>, done: set<Key>, retain: nat, rows': seq<Row>) {
    forall key :: History(rows', key) == if key in done then LastN(History(rows, key), retain) else History(rows, key)
  }

  lemma OneMoreCap(rows: seq<Row>, done: set<Key>, retain: nat, rows': seq<Row>, key: Key)
    requires CappedFor(rows, done, retain, rows') && key !in done
    ensures CappedFor(rows, done + {key}, retain, Capped(rows', key, retain))
  {
    forall k ensures History(Capped(rows', key, retain), k) ==
        if k in done + {key} then LastN(History(rows, k), retain) else History(rows, k)
    {
      CappedHistory(rows', key, retain, k);
    }
  }

  class Device {
    const retain: nat
    var rows: seq<Row>

    constructor (retain: nat)
      ensures this.retain == retain && rows == []
    {
      this.retain := retain;
      rows := [];
    }

    method EvictInactiveDiskKeys(since: int)
      modifies this`rows
      ensures rows == Only(old(rows), Active(old(rows), since))
      ensures forall key :: History(rows, key) ==
                if IsActive(History(old(rows), key), since) then History(old(rows), key) else []
    {
      EvictedHistories(rows, since);
      rows := Only(rows, Active(rows, since));
    }

    method ParseStorage(storage: seq<Option<Disk>>, receivedAt: int) returns (incoming: seq<Row>)
      ensures incoming == Rows(storage, receivedAt)
    {
      incoming := [];
      for i := 0 to |storage|
        invariant incoming + Rows(storage[i..], receivedAt) == Rows(storage, receivedAt)
      {
        assert storage[i..][1..] == storage[i + 1..];
        if storage[i].Some? {
          incoming := incoming + [Row(storage[i].value.key, receivedAt, storage[i].value.payload)];
        }
      }
    }

    method CapKeys(keys: set<Key>)
      modifies this`rows
      ensures CappedFor(old(rows), keys, retain, rows)
    {
      var left := keys;
      ghost var done: set<Key> := {};
      while left != {}
        invariant done !! left && done + left == keys
        invariant CappedFor(old(rows), done, retain, rows)
        decreases left
      {
        var key :| key in left;
        OneMoreCap(old(rows), done, retain, rows, key);
        rows := Capped(rows, key, retain);
        left, done := left - {key}, done + {key};
      }
      assert done == keys;
    }

    method StoreDiskReadings(storage: seq<Option<Disk>>, receivedAt: int, now: int)
      modifies this`rows
      ensures Next(old(rows), Rows(storage, receivedAt), Since(now), retain, rows)
    {
      hide Next;
      hide CappedFor;
      hide Active;
      hide Blocked;
      var incoming := ParseStorage(storage, receivedAt);
      if incoming == [] {
        NothingIncoming(rows, Since(now), retain);
        return;
      }
      var since := Since(now);
      var existing := Active(rows, since);
      var newcomers := Keys(incoming) - existing;
      var blocked := Blocked(newcomers, if |existing| < MAX_KEYS then MAX_KEYS - |existing| else 0);
      var kept := Only(incoming, Keys(incoming) - blocked);
      rows := rows + kept;
      CapKeys(Keys(kept));
      StoredHistories(old(rows), incoming, since, retain, rows);
      if newcomers != {} {
        EvictInactiveDiskKeys(since);
      }
    }
  }

  lemma NothingIncoming(rows: seq<Row>, since: int, retain: nat)
    ensures Next(rows, [], since, retain, rows)
  {
    assert Keys([]) == {};
  }

  /** The statements together, seen key by key. */
  lemma StoredHistories(was: seq<Row>, incoming: seq<Row>, since: int, retain: nat, capped: seq<Row>)
    requires var kept := Only(incoming, Keys(incoming) - Refused(was, incoming, since));
      CappedFor(was + kept, Keys(kept), retain, capped)
    ensures Next(was, incoming, since, retain,
                 if Fresh(was, incoming, since) != {} then Only(capped, Active(capped, since)) else capped)
  {
    hide Refused;
    hide Active;
    var pass := Keys(incoming) - Refused(was, incoming, since);
    var kept := Only(incoming, pass);
    forall key
      ensures History(if Fresh(was, incoming, since) != {} then Only(capped, Active(capped, since)) else capped, key)
              == NextHistory(was, incoming, since, retain, key)
    {
      HistoryPlus(was, kept, key);
      OnlyHistory(incoming, pass, key);
      HistoryOfKeys(kept, key, since);
      HistoryOfKeys(incoming, key, since);
      HistoryOfKeys(capped, key, since);
      OnlyHistory(capped, Active(capped, since), key);
      PlusEmpty(History(was, key));
    }
  }

  // ---- bounds over any run ----

  ghost predicate Bounded(rows: seq<Row>, retain: nat) {
    && |Keys(rows)| <= MAX_KEYS
    && forall key :: |History(rows, key)| <= retain
  }

  lemma SubsetCard(a: set<Key>, b: set<Key>)
    requires a <= b
    ensures |a| <= |b|
  {
    assert b == a + (b - a);
  }

  lemma StepKeepsBounds(rows: seq<Row>, incoming: seq<Row>, since: int, retain: nat, rows': seq<Row>)
    requires Bounded(rows, retain) && Next(rows, incoming, since, retain, rows')
    ensures Bounded(rows', retain)
  {
    hide Refused;
    hide Active;
    forall key ensures |History(rows', key)| <= retain {
      assert History(rows', key) == NextHistory(rows, incoming, since, retain, key);
    }
    var active, newcomers := Active(rows, since), Fresh(rows, incoming, since);
    var pass := newcomers - Refused(rows, incoming, since);
    ActiveAreKeys(rows, since);
    if newcomers == {} {
      forall key | key in Keys(rows')
        ensures key in Keys(rows)
      {
        HistoryOfKeys(rows', key, since);
        HistoryOfKeys(rows, key, since);
        HistoryOfKeys(incoming, key, since);
        assert key !in Fresh(rows, incoming, since);
      }
      SubsetCard(Keys(rows'), Keys(rows));
    } else {
      forall key | key in Keys(rows')
        ensures key in active + pass
      {
        HistoryOfKeys(rows', key, since);
        HistoryOfKeys(rows, key, since);
      }
      SubsetCard(Keys(rows'), active + pass);
      PassCount(rows, incoming, since);
    }
  }

  lemma ActiveAreKeys(rows: seq<Row>, since: int)
    ensures |Active(rows, since)| <= |Keys(rows)| && Active(rows, since) <= Keys(rows)
  {
    SubsetCard(Active(rows, since), Keys(rows));
  }

  lemma PassCount(rows: seq<Row>, incoming: seq<Row>, since: int)
    requires |Active(rows, since)| <= MAX_KEYS
    ensures var pass := Fresh(rows, incoming, since) - Refused(rows, incoming, since);
      |Active(rows, since) + pass| <= MAX_KEYS
  {
    hide Active;
    hide Fresh;
    hide Blocked;
    var active, newcomers := Active(rows, since), Fresh(rows, incoming, since);
    AllowedCount(newcomers, MAX_KEYS - |active|);
    UnionCard(active, newcomers - Blocked(newcomers, MAX_KEYS - |active|));
  }

  lemma UnionCard(a: set<Key>, b: set<Key>)
    ensures |a + b| <= |a| + |b|
  {
    assert a + b == a + (b - a);
  }

  datatype Call = Call(incoming: seq<Row>, since: int)

  ghost predicate IsRun(states: seq<seq<Row>>, calls: seq<Call>, retain: nat) {
    && |states| == |calls| + 1
    && states[0] == []
    && forall i :: 0 <= i < |calls| ==> Next(states[i], calls[i].incoming, calls[i].since, retain, states[i + 1])
  }

  /** From an empty table, whatever keys, receipt times and clock readings the calls bring: never more than 32
      keys, and never more than 32 times the row cap of rows. */
  lemma {:induction false} RunIsBounded(states: seq<seq<Row>>, calls: seq<Call>, retain: nat)
    requires IsRun(states, calls, retain)
    ensures var rows := states[|calls|]; Bounded(rows, retain) && |rows| <= MAX_KEYS * retain
    decreases |calls|
  {
    var n := |calls|;
    if n == 0 {
      assert Keys([]) == {};
    } else {
      RunIsBounded(states[..n], calls[..n - 1], retain);
      StepKeepsBounds(states[n - 1], calls[n - 1].incoming, calls[n - 1].since, retain, states[n]);
    }
    RowCount(states[n], Keys(states[n]), retain);
    Times(|Keys(states[n])|, MAX_KEYS, retain);
  }

  lemma Times(a: nat, b: nat, c: nat)
    requires a <= b
    ensures a * c <= b * c
  {}

  lemma {:induction false} WithoutKey(rows: seq<Row>, keys: set<Key>, key: Key)
    requires Keys(rows) <= keys
    ensures |rows| == |Only(rows, keys - {key})| + |History(rows, key)|
  {
    if rows == [] {
    } else {
      assert rows[0].key in Keys(rows);
      forall r | r in rows[1..]
        ensures r.key in Keys(rows)
      {
        assert r in rows;
      }
      WithoutKey(rows[1..], keys, key);
    }
  }

  lemma {:induction false} RowCount(rows: seq<Row>, keys: set<Key>, retain: nat)
    requires Keys(rows) <= keys && forall key :: |History(rows, key)| <= retain
    ensures |rows| <= |keys| * retain
    decreases |keys|
  {
    if keys == {} {
      assert forall r :: r in rows ==> r.key in Keys(rows);
      NoMembers(rows);
    } else {
      var key :| key in keys;
      var rest := Only(rows, keys - {key});
      WithoutKey(rows, keys, key);
      forall k ensures |History(rest, k)| <= retain {
        OnlyHistory(rows, keys - {key}, k);
      }
      forall k | k in Keys(rest)
        ensures k in keys - {key}
      {
        HistoryOfKeys(rest, k, 0);
        OnlyHistory(rows, keys - {key}, k);
      }
      RowCount(rest, keys - {key}, retain);
      assert |keys| * retain == |keys - {key}| * retain + retain;
    }
  }

  // ---- what a disk can lose ----

  /** A reported key that is not turned away and carries a receipt inside the window loses rows only to its own
      row cap, however long it was silent. */
  lemma ReportedKeyKeepsHistory(rows: seq<Row>, incoming: seq<Row>, since: int, retain: nat, key: Key)
    requires retain > 0 && key in Keys(incoming) && key !in Refused(rows, incoming, since)
    requires forall r :: r in incoming ==> r.at >= since
    ensures NextHistory(rows, incoming, since, retain, key)
            == LastN(History(rows, key) + History(incoming, key), retain)
  {
    hide Refused;
    hide Fresh;
    hide LastN;
    var mine := History(incoming, key);
    HistoryOfKeys(incoming, key, since);
    HistoryMembers(incoming, key);
    LastIsKept(History(rows, key), mine, retain);
    assert mine[|mine| - 1] in mine;
  }

  lemma LastIsKept(a: seq<Row>, b: seq<Row>, n: nat)
    requires b != [] && n > 0
    ensures b[|b| - 1] in LastN(a + b, n)
  {
    var h := LastN(a + b, n);
    assert h[|h| - 1] == b[|b| - 1];
  }

  /** With a receipt older than the window, a silent key loses everything, its new reading included. */
  lemma StaleReceiptLosesHistory(rows: seq<Row>, incoming: seq<Row>, since: int, retain: nat, key: Key)
    requires key in Keys(incoming) && key !in Active(rows, since)
    requires forall r :: r in incoming ==> r.at < since
    ensures NextHistory(rows, incoming, since, retain, key) == []
  {
    HistoryOfKeys(rows, key, since);
    HistoryMembers(incoming, key);
    var all := History(rows, key) + History(incoming, key);
    assert forall r :: r in LastN(all, retain) ==> r in all;
    assert !IsActive(History(rows, key), since);
  }

  /** A key outside the window keeps its rows exactly while no other call brings a new key, and it counts as a new
      key itself. */
  lemma SilentKeyIsEvictedByNewKeys(rows: seq<Row>, incoming: seq<Row>, since: int, retain: nat, key: Key)
    requires key in Keys(rows) && key !in Active(rows, since)
    requires key !in Keys(incoming) || key in Refused(rows, incoming, since)
    ensures NextHistory(rows, incoming, since, retain, key) == [] <==> Fresh(rows, incoming, since) != {}
  {
    HistoryOfKeys(rows, key, since);
  }

  /** An active key that the call does not report keeps every row. */
  lemma ActiveKeyIsSafe(rows: seq<Row>, incoming: seq<Row>, since: int, retain: nat, key: Key)
    requires key in Active(rows, since) && key !in Keys(incoming)
    ensures NextHistory(rows, incoming, since, retain, key) == History(rows, key) != []
  {
    HistoryOfKeys(rows, key, since);
  }
}
