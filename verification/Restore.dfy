/** server/backup.py, `restore`: a verified copy replaces the database, and the live triple of database, `-wal`
    and `-shm` is set aside by renames that can fail and are then undone. */
module Restore {
  import opened Wrappers

  datatype Suffix = Db | Wal | Shm

  const SUFFIXES := [Db, Wal, Shm]

  /** Names in the database's directory. `Aside(n, s)` carries the time stamp of this second, and the counter from 2
      on. */
  datatype Name = Live(s: Suffix) | Aside(n: nat, s: Suffix) | Staged | Other(name: string)

  type Content = string

  type Files = map<Name, Content>

  function At(f: Files, name: Name): Option<Content> {
    if name in f then Some(f[name]) else None
  }

  /** Every file operation of one restore; `Fails` says which of them raise. */
  datatype Op = Copy | Move(s: Suffix) | Swap | Undo(s: Suffix) | Unlink

  type Fails = Op -> bool

  /** `os.replace`: atomic, and it overwrites its destination. */
  function Renamed(f: Files, a: Name, b: Name): Files {
    if a in f then (f - {a})[b := f[a]] else f
  }

  // ---- the steps ----

  /** Files, the suffixes moved so far in order, and whether every move worked. */
  datatype Moves = Moves(files: Files, moved: seq<Suffix>, ok: bool)

  function MoveOne(m: Moves, n: nat, s: Suffix, fails: Fails): Moves {
    if !m.ok || Live(s) !in m.files then m
    else if fails(Move(s)) then m.(ok := false)
    else Moves(Renamed(m.files, Live(s), Aside(n, s)), m.moved + [s], true)
  }

  function MoveUpTo(f: Files, n: nat, i: nat, fails: Fails): Moves
    requires i <= 3
  {
    if i == 0 then Moves(f, [], true) else MoveOne(MoveUpTo(f, n, i - 1, fails), n, SUFFIXES[i - 1], fails)
  }

  function Undone(f: Files, n: nat, moved: seq<Suffix>, fails: Fails): Files
    decreases |moved|
  {
    if moved == [] then f
    else
      var s := moved[|moved| - 1];
      Undone(if fails(Undo(s)) then f else Renamed(f, Aside(n, s), Live(s)), n, moved[..|moved| - 1], fails)
  }

  datatype Outcome = Outcome(files: Files, restored: bool, previous: Option<Name>)

  /** From the staged copy on. */
  function Swapped(f: Files, n: nat, fails: Fails): Outcome {
    var m := MoveUpTo(f, n, 3, fails);
    if m.ok && !fails(Swap) then
      Outcome(Renamed(m.files, Staged, Live(Db)), true, if Db in m.moved then Some(Aside(n, Db)) else None)
    else
      var back := Undone(m.files, n, m.moved, fails);
      Outcome(if fails(Unlink) then back else back - {Staged}, false, None)
  }

  /** The first counter whose set-aside database name is free. */
  predicate IsFree(f: Files, n: nat) {
    n >= 1 && Aside(n, Db) !in f && forall k :: 1 <= k < n ==> Aside(k, Db) in f
  }

  class Directory {
    var files: Files

    constructor ()
      ensures files == map[]
    {
      files := map[];
    }

    method FreeCounter() returns (n: nat)
      ensures IsFree(files, n)
    {
      n := 1;
      ghost var left := files.Keys;
      while Aside(n, Db) in files
        invariant n >= 1 && forall k :: 1 <= k < n ==> Aside(k, Db) in files
        invariant left <= files.Keys && forall k :: k >= n && Aside(k, Db) in files ==> Aside(k, Db) in left
        decreases left
      {
        left := left - {Aside(n, Db)};
        n := n + 1;
      }
    }

    /** `copy` is the backup's content when the file is there, `valid` the integrity check, `partial` what a failed copy
        leaves behind. */
    method Restore(copy: Option<Content>, valid: Content -> bool, partial: Content, fails: Fails)
      returns (restored: bool, previous: Option<Name>)
      modifies this
      ensures copy == None || !valid(copy.value) ==> !restored && files == old(files)
      ensures copy.Some? && valid(copy.value) && fails(Copy) ==> !restored && files == old(files)[Staged := partial]
      ensures copy.Some? && valid(copy.value) && !fails(Copy) ==>
        exists n :: IsFree(old(files), n) &&
          Outcome(files, restored, previous) == Swapped(old(files)[Staged := copy.value], n, fails)
    {
      previous := None;
      if copy == None || !valid(copy.value) {
        return false, None;
      }
      if fails(Copy) {
        files := files[Staged := partial];
        return false, None;
      }
      files := files[Staged := copy.value];
      var n := FreeCounter();
      assert IsFree(old(files), n) by {
        assert forall k :: Aside(k, Db) in files <==> Aside(k, Db) in old(files);
      }
      ghost var start := files;
      var moved: seq<Suffix> := [];
      var ok := true;
      for i := 0 to 3
        invariant Moves(files, moved, ok) == MoveUpTo(start, n, i, fails)
      {
        var s := SUFFIXES[i];
        if ok && Live(s) in files {
          if fails(Move(s)) {
            ok := false;
          } else {
            files := Renamed(files, Live(s), Aside(n, s));
            moved := moved + [s];
          }
        }
      }
      if ok && !fails(Swap) {
        files := Renamed(files, Staged, Live(Db));
        previous := if Db in moved then Some(Aside(n, Db)) else None;
        return true, previous;
      }
      ghost var before, all := files, moved;
      while moved != []
        invariant Undone(files, n, moved, fails) == Undone(before, n, all, fails)
        decreases |moved|
      {
        var s := moved[|moved| - 1];
        if !fails(Undo(s)) {
          files := Renamed(files, Aside(n, s), Live(s));
        }
        moved := moved[..|moved| - 1];
      }
      if !fails(Unlink) {
        files := files - {Staged};
      }
      restored := false;
    }
  }

  // ---- where every original content is ----

  /** Files against the start `f`: suffixes in `aside` are set aside, those in `touched` have been at some time. */
  ghost predicate Shape(f: Files, n: nat, aside: set<Suffix>, touched: set<Suffix>, g: Files) {
    && aside <= touched
    && (forall s :: s in aside ==> Live(s) in f && Live(s) !in g && At(g, Aside(n, s)) == At(f, Live(s)))
    && (forall s :: s in touched ==> Live(s) in f)
    && (forall s :: s !in aside ==> At(g, Live(s)) == At(f, Live(s)))
    && (forall s :: s in touched - aside ==> Aside(n, s) !in g)
    && (forall s :: s !in touched ==> At(g, Aside(n, s)) == At(f, Aside(n, s)))
    && (forall name :: Elsewhere(name, n) ==> At(g, name) == At(f, name))
  }

  predicate Elsewhere(name: Name, n: nat) {
    !name.Live? && (name.Aside? ==> name.n != n)
  }

  function Toset(moved: seq<Suffix>): set<Suffix> {
    set s | s in moved
  }

  lemma {:induction false} MovesShape(f: Files, n: nat, i: nat, fails: Fails)
    requires i <= 3
    ensures var m := MoveUpTo(f, n, i, fails);
      && Shape(f, n, Toset(m.moved), Toset(m.moved), m.files)
      && (forall s :: s in m.moved ==> s in SUFFIXES[..i] && Live(s) in f)
      && (m.ok ==> forall s :: s in SUFFIXES[..i] && Live(s) in f ==> s in m.moved)
  {
    if i == 0 {
    } else {
      var m := MoveUpTo(f, n, i - 1, fails);
      var s := SUFFIXES[i - 1];
      MovesShape(f, n, i - 1, fails);
      assert SUFFIXES[..i] == SUFFIXES[..i - 1] + [s];
      assert s !in SUFFIXES[..i - 1];
      if m.ok && Live(s) in m.files && !fails(Move(s)) {
        MoveShape(f, n, Toset(m.moved), m.files, s);
        assert Toset(m.moved + [s]) == Toset(m.moved) + {s};
      }
    }
  }

  lemma MoveShape(f: Files, n: nat, aside: set<Suffix>, g: Files, s: Suffix)
    requires Shape(f, n, aside, aside, g) && s !in aside && Live(s) in g
    ensures Shape(f, n, aside + {s}, aside + {s}, Renamed(g, Live(s), Aside(n, s)))
  {
    var h := Renamed(g, Live(s), Aside(n, s));
    assert forall name :: name != Live(s) && name != Aside(n, s) ==> At(h, name) == At(g, name);
    assert At(h, Aside(n, s)) == At(g, Live(s)) && Live(s) !in h;
  }

  /** Suffixes whose way back fails. */
  function Stuck(moved: seq<Suffix>, fails: Fails): set<Suffix> {
    set s | s in moved && fails(Undo(s))
  }

  lemma {:induction false} UndoShape(f: Files, n: nat, stuck: set<Suffix>, touched: set<Suffix>, g: Files,
                                     moved: seq<Suffix>, fails: Fails)
    requires Shape(f, n, stuck + Toset(moved), touched, g) && stuck !! Toset(moved)
    requires forall i, k :: 0 <= i < k < |moved| ==> moved[i] != moved[k]
    ensures Shape(f, n, stuck + Stuck(moved, fails), touched, Undone(g, n, moved, fails))
    decreases |moved|
  {
    hide Shape;
    if moved == [] {
      assert stuck + Stuck(moved, fails) == stuck + Toset(moved);
    } else {
      var last := |moved| - 1;
      var s, rest := moved[last], moved[..last];
      assert moved == rest + [s];
      assert s !in rest && Toset(moved) == Toset(rest) + {s};
      if fails(Undo(s)) {
        assert stuck + {s} + Toset(rest) == stuck + Toset(moved);
        UndoShape(f, n, stuck + {s}, touched, g, rest, fails);
        assert stuck + {s} + Stuck(rest, fails) == stuck + Stuck(moved, fails);
      } else {
        UndoOne(f, n, stuck + Toset(moved), touched, g, s);
        assert stuck + Toset(moved) - {s} == stuck + Toset(rest);
        UndoShape(f, n, stuck, touched, Renamed(g, Aside(n, s), Live(s)), rest, fails);
        assert Stuck(rest, fails) == Stuck(moved, fails);
      }
    }
  }

  lemma UndoOne(f: Files, n: nat, aside: set<Suffix>, touched: set<Suffix>, g: Files, s: Suffix)
    requires Shape(f, n, aside, touched, g) && s in aside
    ensures Shape(f, n, aside - {s}, touched, Renamed(g, Aside(n, s), Live(s)))
  {
    var h := Renamed(g, Aside(n, s), Live(s));
    assert Aside(n, s) in g;
    assert forall name :: name != Live(s) && name != Aside(n, s) ==> At(h, name) == At(g, name);
    assert At(h, Live(s)) == At(f, Live(s)) && Aside(n, s) !in h;
  }

  lemma {:induction false} MovedDistinct(f: Files, n: nat, i: nat, fails: Fails)
    requires i <= 3
    ensures var moved := MoveUpTo(f, n, i, fails).moved;
      forall j, k :: 0 <= j < k < |moved| ==> moved[j] != moved[k]
  {
    if i == 0 {
    } else {
      MovedDistinct(f, n, i - 1, fails);
      MovesShape(f, n, i - 1, fails);
      var m := MoveUpTo(f, n, i - 1, fails);
      assert SUFFIXES[i - 1] !in SUFFIXES[..i - 1];
      assert forall k :: 0 <= k < |m.moved| ==> m.moved[k] in m.moved;
    }
  }

  /** The files after a failure, `Staged` apart: only suffixes whose undo failed are still set aside. */
  lemma FailureShape(f: Files, n: nat, fails: Fails)
    requires !Swapped(f, n, fails).restored
    ensures var m := MoveUpTo(f, n, 3, fails);
      && Shape(f, n, Stuck(m.moved, fails), Toset(m.moved), Undone(m.files, n, m.moved, fails))
      && forall name ::
           name != Staged ==> At(Swapped(f, n, fails).files, name) == At(Undone(m.files, n, m.moved, fails), name)
  {
    hide Shape;
    var m := MoveUpTo(f, n, 3, fails);
    MovesShape(f, n, 3, fails);
    MovedDistinct(f, n, 3, fails);
    assert {} + Toset(m.moved) == Toset(m.moved);
    UndoShape(f, n, {}, Toset(m.moved), m.files, m.moved, fails);
    assert {} + Stuck(m.moved, fails) == Stuck(m.moved, fails);
  }

  predicate UndosWork(fails: Fails) {
    !fails(Undo(Db)) && !fails(Undo(Wal)) && !fails(Undo(Shm))
  }

  predicate AsideIsFresh(f: Files, n: nat) {
    Aside(n, Db) !in f && Aside(n, Wal) !in f && Aside(n, Shm) !in f
  }

  lemma NothingStuck(moved: seq<Suffix>, fails: Fails)
    requires UndosWork(fails)
    ensures Stuck(moved, fails) == {}
  {
    forall s ensures !fails(Undo(s)) {
      match s
      case Db =>
      case Wal =>
      case Shm =>
    }
  }

  /** A failure at any rename whose undos work leaves the live triple exactly as before. */
  lemma FailureIsUndone(f: Files, n: nat, fails: Fails, s: Suffix)
    requires !Swapped(f, n, fails).restored && UndosWork(fails)
    ensures At(Swapped(f, n, fails).files, Live(s)) == At(f, Live(s))
  {
    NothingStuck(MoveUpTo(f, n, 3, fails).moved, fails);
    FailureShape(f, n, fails);
  }

  /** With fresh set-aside names the whole directory is as before, the staged copy gone too if it could be removed. */
  lemma FailureLeavesNoTrace(f: Files, n: nat, fails: Fails)
    requires !Swapped(f, n, fails).restored && UndosWork(fails) && AsideIsFresh(f, n)
    ensures Swapped(f, n, fails).files == if fails(Unlink) then f else f - {Staged}
  {
    var m := MoveUpTo(f, n, 3, fails);
    var g := Swapped(f, n, fails).files;
    NothingStuck(m.moved, fails);
    FailureShape(f, n, fails);
    forall name | name != Staged
      ensures At(g, name) == At(f, name)
    {
      match name
      case Live(s) =>
      case Aside(k, s) => FreshAside(f, n, s);
      case Other(_) => assert Elsewhere(name, n);
    }
    assert Elsewhere(Staged, n);
    SameFiles(g, if fails(Unlink) then f else f - {Staged});
  }

  lemma FreshAside(f: Files, n: nat, s: Suffix)
    requires AsideIsFresh(f, n)
    ensures Aside(n, s) !in f
  {
    match s
    case Db =>
    case Wal =>
    case Shm =>
  }

  lemma SameFiles(g: Files, h: Files)
    requires forall name :: At(g, name) == At(h, name)
    ensures g == h
  {
    forall name
      ensures name in g <==> name in h
      ensures name in g ==> g[name] == h[name]
    {
      assert At(g, name) == At(h, name);
    }
  }

  /** Even when undos fail, no original content is lost: each live file is where it was or under its set-aside name, and
      a live name holds its own content or nothing. */
  lemma FailureLosesNothing(f: Files, n: nat, fails: Fails, s: Suffix)
    requires !Swapped(f, n, fails).restored && Live(s) in f
    ensures var g := Swapped(f, n, fails).files;
      && (At(g, Live(s)) == At(f, Live(s)) || (At(g, Live(s)) == None && At(g, Aside(n, s)) == At(f, Live(s))))
  {
    FailureShape(f, n, fails);
  }

  lemma IsSuffix(s: Suffix)
    ensures s in SUFFIXES
  {
    match s
    case Db => assert SUFFIXES[0] == Db;
    case Wal => assert SUFFIXES[1] == Wal;
    case Shm => assert SUFFIXES[2] == Shm;
  }

  /** Success: the target holds the copy, no journal is left at a live name, the old triple is set aside, and no
      other file changes. */
  lemma SuccessIsComplete(f: Files, n: nat, fails: Fails)
    requires Swapped(f, n, fails).restored && Staged in f
    ensures var o := Swapped(f, n, fails);
      && At(o.files, Live(Db)) == At(f, Staged) && Staged !in o.files
      && Live(Wal) !in o.files && Live(Shm) !in o.files
      && (forall s :: Live(s) in f ==> At(o.files, Aside(n, s)) == At(f, Live(s)))
      && (forall name :: Elsewhere(name, n) && name != Staged ==> At(o.files, name) == At(f, name))
      && o.previous == if Live(Db) in f then Some(Aside(n, Db)) else None
  {
    MovesShape(f, n, 3, fails);
    assert SUFFIXES[..3] == SUFFIXES;
    forall s ensures s in SUFFIXES {
      IsSuffix(s);
    }
    assert Elsewhere(Staged, n);
    var m := MoveUpTo(f, n, 3, fails);
    assert At(m.files, Staged) == At(f, Staged);
  }

  /** No restore, failed or not, ever overwrites a database that an earlier one set aside. */
  lemma EarlierDatabasesStay(f: Files, n: nat, fails: Fails, k: nat)
    requires IsFree(f, n) && Staged in f && Aside(k, Db) in f
    ensures At(Swapped(f, n, fails).files, Aside(k, Db)) == At(f, Aside(k, Db))
  {
    assert Elsewhere(Aside(k, Db), n);
    if Swapped(f, n, fails).restored {
      SuccessIsComplete(f, n, fails);
    } else {
      FailureShape(f, n, fails);
    }
  }

  function Rank(s: Suffix): nat {
    match s
    case Db => 0
    case Wal => 1
    case Shm => 2
  }

  /** A live file is renamed unless its own rename or that of a live file before it fails. */
  predicate IsMoved(f: Files, fails: Fails, s: Suffix) {
    Live(s) in f && forall t :: Live(t) in f && Rank(t) <= Rank(s) ==> !fails(Move(t))
  }

  lemma StillLive(f: Files, n: nat, i: nat, fails: Fails)
    requires i < 3
    ensures Live(SUFFIXES[i]) in MoveUpTo(f, n, i, fails).files <==> Live(SUFFIXES[i]) in f
  {
    hide MoveOne;
    MovesShape(f, n, i, fails);
    assert SUFFIXES[i] !in SUFFIXES[..i];
  }

  lemma {:induction false} MovedUpTo(f: Files, n: nat, i: nat, fails: Fails)
    requires i <= 3
    ensures var m := MoveUpTo(f, n, i, fails);
      && (forall s :: s in m.moved <==> Rank(s) < i && IsMoved(f, fails, s))
      && (m.ok <==> forall t :: Live(t) in f && Rank(t) < i ==> !fails(Move(t)))
  {
    hide Renamed;
    if i == 0 {
    } else {
      MovedUpTo(f, n, i - 1, fails);
      StillLive(f, n, i - 1, fails);
      var s := SUFFIXES[i - 1];
      assert Rank(s) == i - 1 && forall t :: Rank(t) == i - 1 ==> t == s;
    }
  }

  /** What a set-aside name of this restore holds afterwards, whatever fails: the live file, if it was renamed and
      stays set aside; nothing, if it was renamed and went back; else what it held before. So a file that an earlier
      restore left there is gone if and only if the live file of its suffix was renamed: only the database's name is
      checked to be free. */
  lemma EarlierJournalOverwritten(f: Files, n: nat, fails: Fails, s: Suffix)
    ensures var o := Swapped(f, n, fails);
      At(o.files, Aside(n, s)) ==
        if IsMoved(f, fails, s) then (if o.restored || fails(Undo(s)) then At(f, Live(s)) else None)
        else At(f, Aside(n, s))
  {
    MovesShape(f, n, 3, fails);
    MovedUpTo(f, n, 3, fails);
    if !Swapped(f, n, fails).restored {
      FailureShape(f, n, fails);
    }
  }

  /** Such a journal comes from a restore whose swap failed and whose journal alone could not be moved back: the next
      restore in the same second takes the same names and its last transactions are gone. */
  lemma StrandedJournalIsLost(db: Content, wal: Content, copy: Content, newWal: Content, fails: Fails, none: Fails)
    requires newWal != wal && copy != wal && db != wal
    requires forall op :: fails(op) <==> op == Swap || op == Undo(Wal)
    requires forall op :: !none(op)
    ensures var first := Swapped(map[Live(Db) := db, Live(Wal) := wal, Staged := copy], 1, fails).files;
      && first == map[Live(Db) := db, Aside(1, Wal) := wal]
      && IsFree(first, 1)
      && var second := Swapped(first[Live(Wal) := newWal][Staged := copy], 1, none);
         second.restored && forall name :: name in second.files ==> second.files[name] != wal
  {
    FirstRun(map[Live(Db) := db, Live(Wal) := wal, Staged := copy], db, wal, copy, fails);
    var f2 := map[Live(Db) := db, Aside(1, Wal) := wal, Live(Wal) := newWal, Staged := copy];
    assert f2 == map[Live(Db) := db, Aside(1, Wal) := wal][Live(Wal) := newWal][Staged := copy];
    assert MoveUpTo(f2, 1, 1, none) == MoveOne(MoveUpTo(f2, 1, 0, none), 1, Db, none);
    assert MoveUpTo(f2, 1, 2, none) == MoveOne(MoveUpTo(f2, 1, 1, none), 1, Wal, none);
    assert MoveUpTo(f2, 1, 3, none) == MoveOne(MoveUpTo(f2, 1, 2, none), 1, Shm, none);
  }

  lemma FirstRun(f: Files, db: Content, wal: Content, copy: Content, fails: Fails)
    requires f == map[Live(Db) := db, Live(Wal) := wal, Staged := copy]
    requires forall op :: fails(op) <==> op == Swap || op == Undo(Wal)
    ensures Swapped(f, 1, fails).files == map[Live(Db) := db, Aside(1, Wal) := wal]
  {
    hide MoveUpTo;
    hide Undone;
    FirstMoves(f, db, wal, copy, fails);
    var g := map[Aside(1, Db) := db, Aside(1, Wal) := wal, Staged := copy];
    FirstUndos(g, db, wal, copy, fails);
    assert !fails(Unlink);
  }

  lemma FirstMoves(f: Files, db: Content, wal: Content, copy: Content, fails: Fails)
    requires f == map[Live(Db) := db, Live(Wal) := wal, Staged := copy]
    requires !fails(Move(Db)) && !fails(Move(Wal))
    ensures MoveUpTo(f, 1, 3, fails) ==
            Moves(map[Aside(1, Db) := db, Aside(1, Wal) := wal, Staged := copy], [Db, Wal], true)
  {
    var m1 := MoveUpTo(f, 1, 1, fails);
    var m2 := MoveUpTo(f, 1, 2, fails);
    assert m1 == MoveOne(MoveUpTo(f, 1, 0, fails), 1, Db, fails);
    assert m1.files == map[Aside(1, Db) := db, Live(Wal) := wal, Staged := copy];
    assert m2 == MoveOne(m1, 1, Wal, fails);
    assert m2.files == map[Aside(1, Db) := db, Aside(1, Wal) := wal, Staged := copy];
    assert MoveUpTo(f, 1, 3, fails) == MoveOne(m2, 1, Shm, fails);
  }

  lemma FirstUndos(g: Files, db: Content, wal: Content, copy: Content, fails: Fails)
    requires g == map[Aside(1, Db) := db, Aside(1, Wal) := wal, Staged := copy]
    requires fails(Undo(Wal)) && !fails(Undo(Db))
    ensures Undone(g, 1, [Db, Wal], fails) == map[Live(Db) := db, Aside(1, Wal) := wal, Staged := copy]
  {
    assert [Db, Wal][..1] == [Db] && [Db][..0] == [];
    assert Undone(g, 1, [Db, Wal], fails) == Undone(g, 1, [Db], fails);
    assert Undone(g, 1, [Db], fails) == Undone(Renamed(g, Aside(1, Db), Live(Db)), 1, [], fails);
  }
}
