/** server/ingest_guards.py: the sliding-window limiter and the idempotency set.
    Times are monotonic-clock readings in seconds. */
module IngestGuards {
  import opened Wrappers
  import opened Sequences

  const TRIM_THRESHOLD := 50_000
  const DEDUP_TTL_SEC := 300.0
  const RATE_WINDOW_SEC := 60.0
  const RATE_MAX_PER_WINDOW := 30

  type Windows = map<string, seq<real>>

  function Lookup(w: Windows, key: string): seq<real> {
    if key in w then w[key] else []
  }

  /** The times at or after `cutoff`, in order. */
  function Since(times: seq<real>, cutoff: real): (r: seq<real>)
    ensures |r| <= |times|
  {
    if times == [] then []
    else if times[0] >= cutoff then [times[0]] + Since(times[1..], cutoff)
    else Since(times[1..], cutoff)
  }

  // ---- the limiter as functions of its dictionary ----

  function StaleKeys(w: Windows, cutoff: real): set<string> {
    set key | key in w && Since(w[key], cutoff) == []
  }

  function Trimmed(w: Windows, cutoff: real): Windows {
    if |w| > TRIM_THRESHOLD then w - StaleKeys(w, cutoff) else w
  }

  function Checked(w: Windows, key: string, now: real): (bool, Windows) {
    var cutoff := now - RATE_WINDOW_SEC;
    var w' := Trimmed(w, cutoff);
    var times := Since(Lookup(w', key), cutoff);
    if |times| >= RATE_MAX_PER_WINDOW then (false, w'[key := times])
    else (true, w'[key := times + [now]])
  }

  function Min(times: seq<real>): (m: real)
    requires times != []
    ensures m in times && forall t :: t in times ==> m <= t
  {
    if |times| == 1 then times[0]
    else
      var m := Min(times[1..]);
      assert times == [times[0]] + times[1..];
      if times[0] <= m then times[0] else m
  }

  function Ceil(x: real): (c: int)
    ensures c as real - 1.0 < x <= c as real
  {
    -(-x).Floor
  }

  function RetryAfter(w: Windows, key: string, now: real): int {
    var times := Since(Lookup(w, key), now - RATE_WINDOW_SEC);
    if |times| < RATE_MAX_PER_WINDOW then 1
    else
      var wait := Ceil(Min(times) + RATE_WINDOW_SEC - now);
      if wait < 1 then 1 else wait
  }

  // ---- the idempotency set as functions of its dictionary ----

  type Seen = map<string, real>

  predicate HasSeenKey(seen: Seen, key: string) {
    key != "" && key in seen
  }

  function Marked(seen: Seen, key: string, now: real): Seen {
    if key == "" then seen
    else
      var kept := if |seen| > TRIM_THRESHOLD
                  then map k | k in seen && seen[k] >= now - DEDUP_TTL_SEC :: seen[k]
                  else seen;
      kept[key := now]
  }

  lemma Forget<V>(m: map<string, V>, all: set<string>, left: set<string>, k: string)
    requires left <= all && k in left
    ensures m - (all - (left - {k})) == m - (all - left) - {k}
  {}

  /** A key is seen from its mark on, until a mark of another key that finds the set oversized after the TTL. */
  lemma SeenAfterMark(seen: Seen, marked: string, now: real, key: string)
    ensures HasSeenKey(Marked(seen, marked, now), key) <==>
      key != "" &&
      (key == marked
       || (HasSeenKey(seen, key)
           && (marked == "" || |seen| <= TRIM_THRESHOLD || now <= seen[key] + DEDUP_TTL_SEC)))
  {}

  /** The module's two dictionaries. An absent key is the empty string. */
  class Guards {
    var deviceWindows: Windows
    var seenKeys: Seen

    constructor ()
      ensures deviceWindows == map[] && seenKeys == map[]
    {
      deviceWindows, seenKeys := map[], map[];
    }

    method TrimWindows(cutoff: real)
      modifies this`deviceWindows
      ensures deviceWindows == Trimmed(old(deviceWindows), cutoff)
    {
      if |deviceWindows| > TRIM_THRESHOLD {
        var stale := StaleKeys(deviceWindows, cutoff);
        ghost var all := stale;
        while stale != {}
          invariant stale <= all
          invariant deviceWindows == old(deviceWindows) - (all - stale)
          decreases stale
        {
          var d :| d in stale;
          Forget(old(deviceWindows), all, stale, d);
          deviceWindows := deviceWindows - {d};
          stale := stale - {d};
        }
      }
    }

    method CheckRateLimit(key: string, now: real) returns (ok: bool)
      modifies this`deviceWindows
      ensures (ok, deviceWindows) == Checked(old(deviceWindows), key, now)
    {
      var cutoff := now - RATE_WINDOW_SEC;
      TrimWindows(cutoff);
      var times := Since(Lookup(deviceWindows, key), cutoff);
      if |times| >= RATE_MAX_PER_WINDOW {
        deviceWindows := deviceWindows[key := times];
        return false;
      }
      deviceWindows := deviceWindows[key := times + [now]];
      return true;
    }

    method RetryAfterSec(key: string, now: real) returns (wait: int)
      ensures wait == RetryAfter(deviceWindows, key, now)
      ensures var recent := Since(Lookup(deviceWindows, key), now - RATE_WINDOW_SEC);
        && wait >= 1
        && (|recent| < RATE_MAX_PER_WINDOW ==> wait == 1)
        && (|recent| >= RATE_MAX_PER_WINDOW ==>
              // The first whole second, from 1 on, by which the oldest admission is a window old.
              && Min(recent) + RATE_WINDOW_SEC <= now + wait as real
              && (wait > 1 ==> now + (wait - 1) as real < Min(recent) + RATE_WINDOW_SEC))
    {
      var times := Since(Lookup(deviceWindows, key), now - RATE_WINDOW_SEC);
      if |times| < RATE_MAX_PER_WINDOW {
        return 1;
      }
      wait := Ceil(Min(times) + RATE_WINDOW_SEC - now);
      wait := if wait < 1 then 1 else wait;
    }

    method HasSeen(key: string) returns (duplicate: bool)
      ensures duplicate == HasSeenKey(seenKeys, key)
    {
      duplicate := key != "" && key in seenKeys;
    }

    method MarkSeen(key: string, now: real)
      modifies this`seenKeys
      ensures seenKeys == Marked(old(seenKeys), key, now)
    {
      if key == "" {
        return;
      }
      if |seenKeys| > TRIM_THRESHOLD {
        var cutoff := now - DEDUP_TTL_SEC;
        var stale := set k | k in seenKeys && seenKeys[k] < cutoff;
        ghost var all := stale;
        while stale != {}
          invariant stale <= all
          invariant seenKeys == old(seenKeys) - (all - stale)
          decreases stale
        {
          var k :| k in stale;
          Forget(old(seenKeys), all, stale, k);
          seenKeys := seenKeys - {k};
          stale := stale - {k};
        }
      }
      seenKeys := seenKeys[key := now];
    }
  }

  // ---- the reference limiter: every admission is kept for ever ----

  datatype Request = Request(key: string, now: real)

  function IdealStep(log: Windows, r: Request): (bool, Windows) {
    if |Since(Lookup(log, r.key), r.now - RATE_WINDOW_SEC)| < RATE_MAX_PER_WINDOW
    then (true, log[r.key := Lookup(log, r.key) + [r.now]])
    else (false, log)
  }

  function IdealAnswers(log: Windows, rs: seq<Request>): seq<bool>
    decreases |rs|
  {
    if rs == [] then []
    else var (ok, log') := IdealStep(log, rs[0]); [ok] + IdealAnswers(log', rs[1..])
  }

  function IdealLog(log: Windows, rs: seq<Request>): Windows
    decreases |rs|
  {
    if rs == [] then log else IdealLog(IdealStep(log, rs[0]).1, rs[1..])
  }

  function Answers(w: Windows, rs: seq<Request>): seq<bool>
    decreases |rs|
  {
    if rs == [] then []
    else var (ok, w') := Checked(w, rs[0].key, rs[0].now); [ok] + Answers(w', rs[1..])
  }

  function WindowsAfter(w: Windows, rs: seq<Request>): Windows
    decreases |rs|
  {
    if rs == [] then w else WindowsAfter(Checked(w, rs[0].key, rs[0].now).1, rs[1..])
  }

  ghost predicate ClockFrom(start: real, rs: seq<Request>)
    decreases |rs|
  {
    rs == [] || (start <= rs[0].now && ClockFrom(rs[0].now, rs[1..]))
  }

  function LastTime(start: real, rs: seq<Request>): real
    decreases |rs|
  {
    if rs == [] then start else LastTime(rs[0].now, rs[1..])
  }

  /** From `now` on, the pruned lists and the complete log look the same through any window. */
  ghost predicate SameView(w: Windows, log: Windows, now: real) {
    forall key, c :: c >= now - RATE_WINDOW_SEC ==> Since(Lookup(w, key), c) == Since(Lookup(log, key), c)
  }

  lemma {:induction false} SinceSince(times: seq<real>, c0: real, c1: real)
    requires c0 <= c1
    ensures Since(Since(times, c0), c1) == Since(times, c1)
  {
    if times == [] {
    } else {
      SinceSince(times[1..], c0, c1);
      ConsTail(times[0], Since(times[1..], c0));
    }
  }

  lemma {:induction false} SinceAppend(times: seq<real>, t: real, c: real)
    ensures Since(times + [t], c) == Since(times, c) + (if t >= c then [t] else [])
  {
    if times == [] {
      PlusEmpty([t]);
      assert Since([t], c) == if t >= c then [t] else [];
    } else {
      TailOfPlus(times, [t]);
      SinceAppend(times[1..], t, c);
    }
  }

  /** Trimming the dictionary drops only keys whose windows are empty. */
  lemma TrimmedLookup(w: Windows, cutoff: real, key: string)
    ensures Since(Lookup(Trimmed(w, cutoff), key), cutoff) == Since(Lookup(w, key), cutoff)
  {}

  /** What a check does to the view of any key through any later window. */
  lemma CheckedView(w: Windows, r: Request, key: string, c: real)
    requires c >= r.now - RATE_WINDOW_SEC
    ensures var (ok, w') := Checked(w, r.key, r.now);
      && (ok <==> |Since(Lookup(w, r.key), r.now - RATE_WINDOW_SEC)| < RATE_MAX_PER_WINDOW)
      && Since(Lookup(w', key), c) ==
           Since(Lookup(w, key), c) + (if ok && key == r.key && r.now >= c then [r.now] else [])
  {
    hide Since, Trimmed;
    var cutoff := r.now - RATE_WINDOW_SEC;
    TrimmedLookup(w, cutoff, r.key);
    TrimmedLookup(w, cutoff, key);
    var t := Trimmed(w, cutoff);
    SinceSince(Lookup(w, key), cutoff, c);
    SinceSince(Lookup(t, key), cutoff, c);
    SinceAppend(Since(Lookup(t, key), cutoff), r.now, c);
  }

  lemma StepKeepsView(w: Windows, log: Windows, r: Request)
    requires SameView(w, log, r.now)
    ensures Checked(w, r.key, r.now).0 == IdealStep(log, r).0
    ensures SameView(Checked(w, r.key, r.now).1, IdealStep(log, r).1, r.now)
  {
    hide Since, Checked;
    var cutoff := r.now - RATE_WINDOW_SEC;
    assert Since(Lookup(w, r.key), cutoff) == Since(Lookup(log, r.key), cutoff);
    forall key, c | c >= cutoff
      ensures Checked(w, r.key, r.now).0 == IdealStep(log, r).0
      ensures Since(Lookup(Checked(w, r.key, r.now).1, key), c) == Since(Lookup(IdealStep(log, r).1, key), c)
    {
      assert Since(Lookup(w, key), c) == Since(Lookup(log, key), c);
      CheckedView(w, r, key, c);
      SinceAppend(Lookup(log, key), r.now, c);
    }
    CheckedView(w, r, r.key, cutoff);
  }

  lemma {:induction false} AnswersAgree(w: Windows, log: Windows, start: real, rs: seq<Request>)
    requires ClockFrom(start, rs) && SameView(w, log, start)
    ensures Answers(w, rs) == IdealAnswers(log, rs)
    ensures SameView(WindowsAfter(w, rs), IdealLog(log, rs), LastTime(start, rs))
    decreases |rs|
  {
    if rs == [] {
    } else {
      assert SameView(w, log, rs[0].now);
      StepKeepsView(w, log, rs[0]);
      AnswersAgree(Checked(w, rs[0].key, rs[0].now).1, IdealStep(log, rs[0]).1, rs[0].now, rs[1..]);
    }
  }

  // ---- readings in any order ----

  function Later(a: real, b: real): real {
    if a <= b then b else a
  }

  /** No admission of the key is inside the window of this reading and outside that of `latest`. */
  ghost predicate NoneBetween(times: seq<real>, now: real, latest: real) {
    forall t :: t in times ==> !(now - RATE_WINDOW_SEC <= t < latest - RATE_WINDOW_SEC)
  }

  /** Requests may take the lock against the order of their readings. No check comes upon an admission in its own window
      that was outside the window of an earlier check: only those can have been dropped. */
  ghost predicate NoneForgotten(log: Windows, latest: real, rs: seq<Request>)
    decreases |rs|
  {
    rs == [] ||
    (&& NoneBetween(Lookup(log, rs[0].key), rs[0].now, latest)
     && NoneForgotten(IdealStep(log, rs[0]).1, Later(latest, rs[0].now), rs[1..]))
  }

  lemma {:induction false} InOrderForgetsNothing(log: Windows, start: real, rs: seq<Request>)
    requires ClockFrom(start, rs)
    ensures NoneForgotten(log, start, rs)
    decreases |rs|
  {
    hide IdealStep;
    if rs == [] {
    } else {
      InOrderForgetsNothing(IdealStep(log, rs[0]).1, rs[0].now, rs[1..]);
    }
  }

  /** The pruned lists hold nothing else. */
  ghost predicate Within(w: Windows, log: Windows) {
    forall key, t :: t in Lookup(w, key) ==> t in Lookup(log, key)
  }

  lemma {:induction false} SinceGap(times: seq<real>, now: real, latest: real)
    requires now <= latest && NoneBetween(times, now, latest)
    ensures Since(times, now - RATE_WINDOW_SEC) == Since(times, latest - RATE_WINDOW_SEC)
  {
    if times == [] {
    } else {
      assert times[0] in times && forall t :: t in times[1..] ==> t in times;
      SinceGap(times[1..], now, latest);
    }
  }

  lemma CheckedMembers(w: Windows, r: Request, key: string, t: real)
    requires t in Lookup(Checked(w, r.key, r.now).1, key)
    ensures t in Lookup(w, key) || (key == r.key && t == r.now && Checked(w, r.key, r.now).0)
  {
    SinceMembers(Lookup(Trimmed(w, r.now - RATE_WINDOW_SEC), r.key), r.now - RATE_WINDOW_SEC);
  }

  lemma SameCount(w: Windows, log: Windows, r: Request, latest: real)
    requires SameView(w, log, latest) && Within(w, log) && NoneBetween(Lookup(log, r.key), r.now, latest)
    ensures Since(Lookup(w, r.key), r.now - RATE_WINDOW_SEC) == Since(Lookup(log, r.key), r.now - RATE_WINDOW_SEC)
  {
    hide Since;
    assert Since(Lookup(w, r.key), Later(latest, r.now) - RATE_WINDOW_SEC)
           == Since(Lookup(log, r.key), Later(latest, r.now) - RATE_WINDOW_SEC);
    if r.now < latest {
      SinceGap(Lookup(log, r.key), r.now, latest);
      SinceGap(Lookup(w, r.key), r.now, latest);
    }
  }

  lemma AnyStepKeepsView(w: Windows, log: Windows, r: Request, latest: real)
    requires SameView(w, log, latest) && Within(w, log) && NoneBetween(Lookup(log, r.key), r.now, latest)
    ensures Checked(w, r.key, r.now).0 == IdealStep(log, r).0
    ensures SameView(Checked(w, r.key, r.now).1, IdealStep(log, r).1, Later(latest, r.now))
    ensures Within(Checked(w, r.key, r.now).1, IdealStep(log, r).1)
  {
    hide Since, Checked;
    SameCount(w, log, r, latest);
    CheckedView(w, r, r.key, r.now - RATE_WINDOW_SEC);
    forall key, c | c >= Later(latest, r.now) - RATE_WINDOW_SEC
      ensures Since(Lookup(Checked(w, r.key, r.now).1, key), c) == Since(Lookup(IdealStep(log, r).1, key), c)
    {
      assert Since(Lookup(w, key), c) == Since(Lookup(log, key), c);
      CheckedView(w, r, key, c);
      SinceAppend(Lookup(log, key), r.now, c);
    }
    forall key, t | t in Lookup(Checked(w, r.key, r.now).1, key)
      ensures t in Lookup(IdealStep(log, r).1, key)
    {
      CheckedMembers(w, r, key, t);
    }
  }

  lemma {:induction false} AnyOrderAgrees(w: Windows, log: Windows, latest: real, rs: seq<Request>)
    requires NoneForgotten(log, latest, rs) && SameView(w, log, latest) && Within(w, log)
    ensures Answers(w, rs) == IdealAnswers(log, rs)
    decreases |rs|
  {
    hide Checked, IdealStep, SameView, Within, NoneBetween;
    if rs == [] {
    } else {
      AnyStepKeepsView(w, log, rs[0], latest);
      AnyOrderAgrees(Checked(w, rs[0].key, rs[0].now).1, IdealStep(log, rs[0]).1, Later(latest, rs[0].now), rs[1..]);
    }
  }

  /** Pruning and trimming change no answer, in whatever order the readings take the lock, unless a check comes upon an
      admission that an earlier check with a later reading may have dropped; and never with readings in order. */
  lemma LimiterIsExact(start: real, rs: seq<Request>)
    ensures NoneForgotten(map[], start, rs) ==> Answers(map[], rs) == IdealAnswers(map[], rs)
    ensures ClockFrom(start, rs) ==> NoneForgotten(map[], start, rs)
  {
    if NoneForgotten(map[], start, rs) {
      AnyOrderAgrees(map[], map[], start, rs);
    }
    if ClockFrom(start, rs) {
      InOrderForgetsNothing(map[], start, rs);
    }
  }

  // ---- what the reference limiter guarantees ----

  ghost predicate Sorted(times: seq<real>) {
    forall i, j :: 0 <= i < j < |times| ==> times[i] <= times[j]
  }

  /** Admissions thirty apart are more than a window apart. */
  ghost predicate Spaced(times: seq<real>) {
    forall i, j :: 0 <= i && i + RATE_MAX_PER_WINDOW <= j < |times| ==> times[j] - times[i] > RATE_WINDOW_SEC
  }

  ghost predicate WellSpaced(log: Windows, now: real) {
    forall key :: Sorted(Lookup(log, key)) && Spaced(Lookup(log, key))
               && forall t :: t in Lookup(log, key) ==> t <= now
  }

  lemma {:induction false} SinceMembers(times: seq<real>, cutoff: real)
    ensures forall t :: t in Since(times, cutoff) ==> t in times && t >= cutoff
  {
    if times == [] {
    } else {
      SinceMembers(times[1..], cutoff);
    }
  }

  /** In a sorted list, the times at or after a cutoff are a suffix. */
  lemma {:induction false} SinceIsSuffix(times: seq<real>, cutoff: real)
    requires Sorted(times)
    ensures Since(times, cutoff) == times[|times| - |Since(times, cutoff)|..]
    ensures forall i :: 0 <= i < |times| - |Since(times, cutoff)| ==> times[i] < cutoff
  {
    if times == [] {
    } else if times[0] >= cutoff {
      assert forall t :: t in times ==> t >= times[0];
      SinceAll(times, cutoff);
    } else {
      var tail := times[1..];
      SinceIsSuffix(tail, cutoff);
      var k := |tail| - |Since(tail, cutoff)|;
      assert times[k + 1..] == tail[k..];
      assert forall i :: 1 <= i < k + 1 ==> times[i] == tail[i - 1];
    }
  }

  lemma {:induction false} SinceAll(times: seq<real>, cutoff: real)
    requires forall t :: t in times ==> t >= cutoff
    ensures Since(times, cutoff) == times
  {
    if times == [] {
    } else {
      assert forall t :: t in times[1..] ==> t in times;
      SinceAll(times[1..], cutoff);
      assert times[0] in times && times == [times[0]] + times[1..];
    }
  }

  lemma AppendKeepsSpacing(times: seq<real>, now: real)
    requires Sorted(times) && Spaced(times) && forall t :: t in times ==> t <= now
    requires |Since(times, now - RATE_WINDOW_SEC)| < RATE_MAX_PER_WINDOW
    ensures Sorted(times + [now]) && Spaced(times + [now])
  {
    SinceIsSuffix(times, now - RATE_WINDOW_SEC);
    var times' := times + [now];
    assert forall i :: 0 <= i < |times| ==> times[i] in times && times'[i] == times[i];
    assert times'[|times|] == now;
  }

  lemma IdealStepKeepsSpacing(log: Windows, r: Request, before: real)
    requires WellSpaced(log, before) && before <= r.now
    ensures WellSpaced(IdealStep(log, r).1, r.now)
  {
    var (ok, log') := IdealStep(log, r);
    if ok {
      AppendKeepsSpacing(Lookup(log, r.key), r.now);
    }
    forall key
      ensures Sorted(Lookup(log', key)) && Spaced(Lookup(log', key))
      ensures forall t :: t in Lookup(log', key) ==> t <= r.now
    {
      assert Sorted(Lookup(log, key)) && Spaced(Lookup(log, key));
    }
  }

  lemma {:induction false} IdealLogIsSpaced(log: Windows, start: real, rs: seq<Request>)
    requires ClockFrom(start, rs) && WellSpaced(log, start)
    ensures WellSpaced(IdealLog(log, rs), LastTime(start, rs))
    decreases |rs|
  {
    if rs == [] {
    } else {
      IdealStepKeepsSpacing(log, rs[0], start);
      IdealLogIsSpaced(IdealStep(log, rs[0]).1, rs[0].now, rs[1..]);
    }
  }

  /** The positions of the admissions inside the closed window that opens at `a`. */
  ghost function InWindow(times: seq<real>, a: real): set<int> {
    set i | 0 <= i < |times| && a <= times[i] <= a + RATE_WINDOW_SEC
  }

  lemma IntervalSize(lo: int, n: nat, s: set<int>)
    requires forall i :: i in s ==> lo <= i < lo + n
    ensures |s| <= n
  {
    if n > 0 {
      IntervalSize(lo, n - 1, s - {lo + n - 1});
      assert lo + n - 1 in s ==> |s| == |s - {lo + n - 1}| + 1;
      assert lo + n - 1 !in s ==> s - {lo + n - 1} == s;
    } else {
      assert forall i :: i !in s;
      assert s == {};
    }
  }

  /** Over any run of the real limiter, no closed window holds more than the maximum of one key. */
  lemma NoWindowOverflows(start: real, rs: seq<Request>, key: string, a: real)
    requires ClockFrom(start, rs)
    ensures |InWindow(Lookup(IdealLog(map[], rs), key), a)| <= RATE_MAX_PER_WINDOW
    ensures Answers(map[], rs) == IdealAnswers(map[], rs)
  {
    LimiterIsExact(start, rs);
    IdealLogIsSpaced(map[], start, rs);
    var times := Lookup(IdealLog(map[], rs), key);
    assert Sorted(times) && Spaced(times);
    var s := InWindow(times, a);
    if i :| i in s {
      var lo := Least(s);
      forall i | i in s ensures lo <= i < lo + RATE_MAX_PER_WINDOW {
        assert lo <= i && times[i] - times[lo] <= RATE_WINDOW_SEC;
      }
      IntervalSize(lo, RATE_MAX_PER_WINDOW, s);
    } else {
      assert s == {};
    }
  }

  lemma Least(s: set<int>) returns (m: int)
    requires exists i :: i in s
    ensures m in s && forall i :: i in s ==> m <= i
  {
    var any :| any in s;
    var below := set i | i in s && i < any;
    assert forall i :: i in s && i < any ==> i in below;
    m := any;
    if exists i :: i in below {
      m := Least(below);
    }
  }

  /** The requests of `key` among `rs` are all refused. */
  ghost predicate NoneAdmitted(w: Windows, rs: seq<Request>, key: string)
    decreases |rs|
  {
    rs == [] ||
    (&& (rs[0].key == key ==> !Checked(w, key, rs[0].now).0)
     && NoneAdmitted(Checked(w, rs[0].key, rs[0].now).1, rs[1..], key))
  }

  /** When a refused key may come back. Whatever the server has done before, and whatever it does in between for
      other keys or for refused requests of this one, with all the pruning and trimming this brings: the answer is
      at least one second, and a retry strictly after it is admitted. At exactly that instant it is admitted unless
      the window's oldest entry is still on its closed edge. */
  lemma RetryAfterIsExact(start: real, rs: seq<Request>, key: string, now: real, between: seq<Request>, later: real)
    requires ClockFrom(start, rs) && LastTime(start, rs) <= now < later
    requires ClockFrom(now, between) && LastTime(now, between) <= later
    requires NoneAdmitted(WindowsAfter(map[], rs), between, key)
    ensures var w := WindowsAfter(map[], rs);
      var wait := RetryAfter(w, key, now);
      var admitted := Checked(WindowsAfter(w, between), key, later).0;
      && wait >= 1
      && (later > now + wait as real ==> admitted)
      && (later == now + wait as real ==>
            (admitted <==>
               var recent := Since(Lookup(w, key), now - RATE_WINDOW_SEC);
               |recent| < RATE_MAX_PER_WINDOW || Min(recent) + RATE_WINDOW_SEC < later))
  {
    hide Checked, Since, WindowsAfter, NoneAdmitted;
    var w := WindowsAfter(map[], rs);
    AtMostMaxRecent(start, rs, key, now);
    CheckedLater(w, key, now, later);
    RefusalsKeepView(w, between, key, now, later - RATE_WINDOW_SEC);
    CheckedView(w, Request(key, later), key, later - RATE_WINDOW_SEC);
    CheckedView(WindowsAfter(w, between), Request(key, later), key, later - RATE_WINDOW_SEC);
  }

  lemma AtMostMaxRecent(start: real, rs: seq<Request>, key: string, now: real)
    requires ClockFrom(start, rs) && LastTime(start, rs) <= now
    ensures |Since(Lookup(WindowsAfter(map[], rs), key), now - RATE_WINDOW_SEC)| <= RATE_MAX_PER_WINDOW
  {
    hide Since, IdealLog, WindowsAfter;
    AnswersAgree(map[], map[], start, rs);
    IdealLogIsSpaced(map[], start, rs);
    assert Since(Lookup(WindowsAfter(map[], rs), key), now - RATE_WINDOW_SEC)
           == Since(Lookup(IdealLog(map[], rs), key), now - RATE_WINDOW_SEC);
    AtMostMax(Lookup(IdealLog(map[], rs), key), now);
  }

  /** Traffic without an admission of the key leaves what a later window shows of it. */
  lemma {:induction false} RefusalsKeepView(w: Windows, rs: seq<Request>, key: string, start: real, cutoff: real)
    requires ClockFrom(start, rs) && NoneAdmitted(w, rs, key) && LastTime(start, rs) <= cutoff + RATE_WINDOW_SEC
    ensures Since(Lookup(WindowsAfter(w, rs), key), cutoff) == Since(Lookup(w, key), cutoff)
    decreases |rs|
  {
    hide Checked, Since;
    if rs == [] {
    } else {
      LastTimeIsLast(rs[0].now, rs[1..]);
      CheckedView(w, rs[0], key, cutoff);
      PlusEmpty(Since(Lookup(w, key), cutoff));
      RefusalsKeepView(Checked(w, rs[0].key, rs[0].now).1, rs[1..], key, rs[0].now, cutoff);
    }
  }

  lemma {:induction false} LastTimeIsLast(start: real, rs: seq<Request>)
    requires ClockFrom(start, rs)
    ensures start <= LastTime(start, rs)
    decreases |rs|
  {
    if rs == [] {
    } else {
      LastTimeIsLast(rs[0].now, rs[1..]);
    }
  }

  // ---- the edge cases occur ----

  /** `n` requests of one key at one instant. */
  function Burst(key: string, t: real, n: nat): seq<Request> {
    if n == 0 then [] else [Request(key, t)] + Burst(key, t, n - 1)
  }

  function Times(t: real, n: nat): seq<real> {
    if n == 0 then [] else Times(t, n - 1) + [t]
  }

  lemma {:induction false} SinceTimes(t: real, n: nat, cutoff: real)
    ensures Since(Times(t, n), cutoff) == (if t >= cutoff then Times(t, n) else []) && |Times(t, n)| == n
    ensures forall x :: x in Times(t, n) ==> x == t
  {
    if n == 0 {
    } else {
      SinceTimes(t, n - 1, cutoff);
      SinceAppend(Times(t, n - 1), t, cutoff);
    }
  }

  /** One check of the only key. */
  lemma OnlyKeyChecked(key: string, times: seq<real>, t: real)
    ensures var kept := Since(times, t - RATE_WINDOW_SEC);
      && Checked(map[key := times], key, t) ==
           (if |kept| >= RATE_MAX_PER_WINDOW then (false, map[key := kept]) else (true, map[key := kept + [t]]))
      && IdealStep(map[key := times], Request(key, t)) ==
           (if |kept| >= RATE_MAX_PER_WINDOW then (false, map[key := times]) else (true, map[key := times + [t]]))
  {
    var w := map[key := times];
    assert |w| == 1 by { assert w.Keys == {key}; }
    assert Trimmed(w, t - RATE_WINDOW_SEC) == w;
    var kept := Since(times, t - RATE_WINDOW_SEC);
    assert w[key := kept] == map[key := kept] && w[key := kept + [t]] == map[key := kept + [t]];
    assert w[key := times + [t]] == map[key := times + [t]];
  }

  lemma FirstChecked(key: string, t: real)
    ensures Checked(map[], key, t) == (true, map[key := [t]])
    ensures IdealStep(map[], Request(key, t)) == (true, map[key := [t]])
  {
    PlusEmpty([t]);
    assert Trimmed(map[], t - RATE_WINDOW_SEC) == map[];
  }

  /** Bursts of the only key, on top of earlier admissions that are still in the window. */
  lemma {:induction false} BurstAdmitted(key: string, t: real, n: nat, before: seq<real>)
    requires |before| + n <= RATE_MAX_PER_WINDOW && Since(before, t - RATE_WINDOW_SEC) == before
    ensures ClockFrom(t, Burst(key, t, n)) && LastTime(t, Burst(key, t, n)) == t
    ensures WindowsAfter(map[key := before], Burst(key, t, n)) == map[key := before + Times(t, n)]
    ensures IdealLog(map[key := before], Burst(key, t, n)) == map[key := before + Times(t, n)]
    decreases n
  {
    hide Checked, IdealStep;
    if n == 0 {
      PlusEmpty(before);
    } else {
      ConsTail(Request(key, t), Burst(key, t, n - 1));
      SinceAppend(before, t, t - RATE_WINDOW_SEC);
      OnlyKeyChecked(key, before, t);
      BurstAdmitted(key, t, n - 1, before + [t]);
      TimesCons(t, n - 1);
      PlusIsAssociative(before, [t], Times(t, n - 1));
    }
  }

  lemma FirstBurst(key: string, t: real, n: nat)
    requires 0 < n <= RATE_MAX_PER_WINDOW
    ensures WindowsAfter(map[], Burst(key, t, n)) == map[key := Times(t, n)]
  {
    hide Checked, IdealStep, WindowsAfter, Since;
    AnswersHead(map[], Request(key, t), Burst(key, t, n - 1));
    FirstChecked(key, t);
    SinceTimes(t, 1, t - RATE_WINDOW_SEC);
    TimesOne(t);
    BurstAdmitted(key, t, n - 1, [t]);
    TimesCons(t, n - 1);
  }

  lemma {:induction false} TimesCons(t: real, n: nat)
    ensures Times(t, n + 1) == [t] + Times(t, n)
  {
    if n == 0 {
    } else {
      TimesCons(t, n - 1);
      PlusIsAssociative([t], Times(t, n - 1), [t]);
    }
  }

  /** Thirty admissions at one instant: the next request is told 60 seconds, and a retry after exactly 60 is refused. */
  lemma RetryAtNamedInstantRefused(key: string)
    ensures var w := WindowsAfter(map[], Burst(key, 0.0, RATE_MAX_PER_WINDOW));
      && ClockFrom(0.0, Burst(key, 0.0, RATE_MAX_PER_WINDOW))
      && !Checked(w, key, 0.0).0 && RetryAfter(w, key, 0.0) == 60 && !Checked(w, key, 60.0).0
  {
    var times := Times(0.0, RATE_MAX_PER_WINDOW);
    BurstAdmitted(key, 0.0, RATE_MAX_PER_WINDOW, []);
    FirstBurst(key, 0.0, RATE_MAX_PER_WINDOW);
    OnlyKeyChecked(key, times, 0.0);
    OnlyKeyChecked(key, times, 60.0);
    SinceTimes(0.0, RATE_MAX_PER_WINDOW, 0.0 - RATE_WINDOW_SEC);
    SinceTimes(0.0, RATE_MAX_PER_WINDOW, 0.0);
    assert Min(times) == 0.0;
  }

  /** The clock is read before the lock is taken. If two threads take it against the order of their readings, the
      pruned list can admit what a complete one refuses: the later reading has already dropped the oldest
      admission. */
  lemma SwappedReadingsAdmitOneMore(key: string)
    ensures var rs := [Request(key, 0.0)] + (Burst(key, 30.0, 28) + [Request(key, 61.0), Request(key, 60.0)]);
      Answers(map[], rs) != IdealAnswers(map[], rs)
  {
    hide Checked, IdealStep, Answers, IdealAnswers, Since;
    var mid := Burst(key, 30.0, 28);
    var tail := [Request(key, 61.0), Request(key, 60.0)];
    var w := map[key := [0.0]];
    FirstChecked(key, 0.0);
    SinceTimes(0.0, 1, -30.0);
    TimesOne(0.0);
    BurstAdmitted(key, 30.0, 28, [0.0]);
    AnswersAppend(w, mid, tail);
    IdealAnswersAppend(w, mid, tail);
    SwappedTail(key, map[key := [0.0] + Times(30.0, 28)]);
    SwappedAnswers(w, mid, tail);
    AnswersHead(map[], Request(key, 0.0), mid + tail);
    ConsTail(true, Answers(w, mid + tail));
    ConsTail(true, IdealAnswers(w, mid + tail));
  }

  lemma TimesOne(t: real)
    ensures Times(t, 1) == [t]
  {
    assert Times(t, 0) == [];
  }

  lemma AnswersHead(w: Windows, r: Request, rs: seq<Request>)
    ensures Answers(w, [r] + rs) == [Checked(w, r.key, r.now).0] + Answers(Checked(w, r.key, r.now).1, rs)
    ensures IdealAnswers(w, [r] + rs) == [IdealStep(w, r).0] + IdealAnswers(IdealStep(w, r).1, rs)
    ensures WindowsAfter(w, [r] + rs) == WindowsAfter(Checked(w, r.key, r.now).1, rs)
  {
    hide Checked, IdealStep;
    ConsTail(r, rs);
  }

  lemma SwappedAnswers(w: Windows, mid: seq<Request>, tail: seq<Request>)
    requires |Answers(w, mid)| == |mid| == |IdealAnswers(w, mid)|
    requires Answers(w, mid + tail) == Answers(w, mid) + Answers(WindowsAfter(w, mid), tail)
    requires IdealAnswers(w, mid + tail) == IdealAnswers(w, mid) + IdealAnswers(IdealLog(w, mid), tail)
    requires Answers(WindowsAfter(w, mid), tail) != IdealAnswers(IdealLog(w, mid), tail)
    ensures Answers(w, mid + tail) != IdealAnswers(w, mid + tail)
  {
    var a, b := Answers(w, mid), IdealAnswers(w, mid);
    assert (a + Answers(WindowsAfter(w, mid), tail))[|a|..] == Answers(WindowsAfter(w, mid), tail);
    assert (b + IdealAnswers(IdealLog(w, mid), tail))[|b|..] == IdealAnswers(IdealLog(w, mid), tail);
  }

  lemma {:induction false} AnswersAppend(w: Windows, a: seq<Request>, b: seq<Request>)
    ensures Answers(w, a + b) == Answers(w, a) + Answers(WindowsAfter(w, a), b) && |Answers(w, a)| == |a|
    decreases |a|
  {
    hide Checked;
    if a == [] {
      PlusEmpty(b);
      PlusEmpty(Answers(w, b));
    } else {
      TailOfPlus(a, b);
      var (ok, w') := Checked(w, a[0].key, a[0].now);
      AnswersAppend(w', a[1..], b);
      PlusIsAssociative([ok], Answers(w', a[1..]), Answers(WindowsAfter(w, a), b));
    }
  }

  lemma {:induction false} IdealAnswersAppend(log: Windows, a: seq<Request>, b: seq<Request>)
    ensures IdealAnswers(log, a + b) == IdealAnswers(log, a) + IdealAnswers(IdealLog(log, a), b)
    ensures |IdealAnswers(log, a)| == |a|
    decreases |a|
  {
    hide IdealStep;
    if a == [] {
      PlusEmpty(b);
      PlusEmpty(IdealAnswers(log, b));
    } else {
      TailOfPlus(a, b);
      var (ok, log') := IdealStep(log, a[0]);
      IdealAnswersAppend(log', a[1..], b);
      PlusIsAssociative([ok], IdealAnswers(log', a[1..]), IdealAnswers(IdealLog(log, a), b));
    }
  }

  lemma SinceCons(t: real, times: seq<real>, cutoff: real)
    ensures Since([t] + times, cutoff) == (if t >= cutoff then [t] else []) + Since(times, cutoff)
  {
    ConsTail(t, times);
    PlusEmpty(Since(times, cutoff));
  }

  lemma SwappedTail(key: string, full: Windows)
    requires full == map[key := [0.0] + Times(30.0, 28)]
    ensures Answers(full, [Request(key, 61.0), Request(key, 60.0)]) == [true, true]
    ensures IdealAnswers(full, [Request(key, 61.0), Request(key, 60.0)]) == [true, false]
  {
    hide Checked, IdealStep, Since;
    var mid := Times(30.0, 28);
    PlusEmpty(mid);
    SinceCons(0.0, mid, 1.0);
    SinceCons(0.0, mid, 0.0);
    var a, b := Request(key, 61.0), Request(key, 60.0);
    ConsTail(0.0, mid);
    SinceTimes(30.0, 28, 0.0);
    SinceTimes(30.0, 28, 1.0);
    SinceAppend([0.0] + mid, 61.0, 0.0);
    SinceAppend(mid, 61.0, 0.0);
    OnlyKeyChecked(key, [0.0] + mid, 61.0);
    OnlyKeyChecked(key, mid + [61.0], 60.0);
    OnlyKeyChecked(key, [0.0] + mid + [61.0], 60.0);
    assert [a] + [b] == [a, b] && [b] + [] == [b];
    assert Checked(full, key, 61.0) == (true, map[key := mid + [61.0]]);
    assert Checked(map[key := mid + [61.0]], key, 60.0).0;
    AnswersHead(full, a, [b]);
    AnswersHead(map[key := mid + [61.0]], b, []);
    AnswersHead(map[key := [0.0] + mid + [61.0]], b, []);
  }

  lemma CheckedLater(w: Windows, key: string, now: real, later: real)
    requires now < later
    requires |Since(Lookup(w, key), now - RATE_WINDOW_SEC)| <= RATE_MAX_PER_WINDOW
    ensures var recent := Since(Lookup(w, key), now - RATE_WINDOW_SEC);
      Checked(w, key, later).0 <==> |recent| < RATE_MAX_PER_WINDOW || Min(recent) + RATE_WINDOW_SEC < later
  {
    var times, cutoff := Lookup(w, key), later - RATE_WINDOW_SEC;
    var recent := Since(times, now - RATE_WINDOW_SEC);
    TrimmedLookup(w, cutoff, key);
    SinceSince(times, now - RATE_WINDOW_SEC, cutoff);
    if |recent| == RATE_MAX_PER_WINDOW {
      if Min(recent) < cutoff {
        SinceDrops(recent, cutoff, Min(recent));
      } else {
        SinceAll(recent, cutoff);
      }
    }
  }

  lemma AtMostMax(times: seq<real>, now: real)
    requires Sorted(times) && Spaced(times) && forall t :: t in times ==> t <= now
    ensures |Since(times, now - RATE_WINDOW_SEC)| <= RATE_MAX_PER_WINDOW
  {
    SinceIsSuffix(times, now - RATE_WINDOW_SEC);
    var k := |times| - |Since(times, now - RATE_WINDOW_SEC)|;
    var recent := Since(times, now - RATE_WINDOW_SEC);
    if recent != [] {
      SinceMembers(times, now - RATE_WINDOW_SEC);
      assert recent[0] == times[k] && recent[0] in recent;
      assert times[|times| - 1] in times;
    }
  }

  lemma {:induction false} SinceDrops(times: seq<real>, cutoff: real, t: real)
    requires t in times && t < cutoff
    ensures |Since(times, cutoff)| < |times|
  {
    if times[0] >= cutoff {
      SinceDrops(times[1..], cutoff, t);
    }
  }
}
