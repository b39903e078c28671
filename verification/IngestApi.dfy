/** server/api.py, `ingest`: the order of the guards and the moment a key is marked.

    A request is four steps, because other requests may run between them: the rate limit (`Limited`), the
    duplicate check and what follows it (`Guarded`), the durable ingest (`Process`) and the mark (`Finish`). */
module IngestApi {
  import opened Wrappers
  import opened IngestGuards

  datatype Envelope = Envelope(device: string, key: string, body: string)

  /** What the server's surroundings decide about one request. */
  datatype Verdict = Accepted | ValueError | Crashed
  /** `retryAt` is the clock reading of a refusal's Retry-After. */
  datatype Setting = Setting(demo: bool, tokenOk: bool, compatible: bool, overDeviceLimit: bool, retryAt: real)

  datatype Reply =
    | Stored                      // 200
    | Duplicate                   // 200
    | TooManyRequests(wait: int)  // 429 with Retry-After
    | Refused(code: int)          // 401, 403, 406, 422
    | ServerError                 // 500

  /** A completed ingest, with the marks made before its duplicate check. */
  datatype Done = Done(env: Envelope, marksSeen: seq<Mark>)

  /** One call of `mark_seen`: its clock reading and the size of the set it found. */
  datatype Mark = Mark(key: string, time: real, size: nat)

  /** `windows` and `seen` live in memory; `completed` is the append-only store.
      `marks` is the history of the current process. */
  datatype Server = Server(windows: Windows, seen: Seen, marks: seq<Mark>, completed: seq<Done>)

  const FreshServer := Server(map[], map[], [], [])

  function RateKey(device: string): string {
    "device:" + device
  }

  /** The guards up to the rate limit. None: go on. */
  function Limited(s: Server, env: Envelope, set_: Setting, now: real): (Server, Option<Reply>) {
    if set_.demo then (s, Some(Refused(403)))
    else if !set_.tokenOk then (s, Some(Refused(401)))
    else
      var (ok, windows) := Checked(s.windows, RateKey(env.device), now);
      (s.(windows := windows),
       if ok then None else Some(TooManyRequests(RetryAfter(windows, RateKey(env.device), set_.retryAt))))
  }

  /** The guards from the duplicate check on. None: the request goes on to `ingest_envelope`. */
  function Guarded(s: Server, env: Envelope, set_: Setting): Option<Reply> {
    if HasSeenKey(s.seen, env.key) then Some(Duplicate)
    else if !set_.compatible then Some(Refused(406))
    else if set_.overDeviceLimit then Some(Refused(403))
    else None
  }

  function Arrive(s: Server, env: Envelope, set_: Setting, now: real): (Server, Option<Reply>) {
    var (s', early) := Limited(s, env, set_, now);
    (s', if early.Some? then early else Guarded(s', env, set_))
  }

  function Process(s: Server, done: Done, v: Verdict): (Server, Option<Reply>) {
    match v
    case ValueError => (s, Some(Refused(422)))
    case Crashed => (s, Some(ServerError))
    case Accepted => (s.(completed := s.completed + [done]), None)
  }

  function Finish(s: Server, key: string, now: real): Server {
    s.(seen := Marked(s.seen, key, now),
       marks := if key == "" then s.marks else s.marks + [Mark(key, now, |s.seen|)])
  }

  function Restarted(s: Server): Server {
    s.(windows := map[], seen := map[], marks := [])
  }

  /** A whole request handled with nothing in between. */
  function Serve(s: Server, env: Envelope, set_: Setting, now: real, v: Verdict, markNow: real): (Server, Reply) {
    var (s1, early) := Arrive(s, env, set_, now);
    if early.Some? then (s1, early.value)
    else
      var (s2, failed) := Process(s1, Done(env, s1.marks), v);
      if failed.Some? then (s2, failed.value) else (Finish(s2, env.key, markNow), Stored)
  }

  /** The handler over the guards' dictionaries. `completed` stands for the database;
      `marks` only records history. */
  class Api {
    const guards: Guards
    var completed: seq<Done>
    var marks: seq<Mark>

    ghost function View(): Server
      reads this, guards
    {
      Server(guards.deviceWindows, guards.seenKeys, marks, completed)
    }

    constructor ()
      ensures View() == FreshServer && fresh(guards)
    {
      guards := new Guards();
      completed, marks := [], [];
    }

    method Ingest(env: Envelope, set_: Setting, now: real, v: Verdict, markNow: real) returns (reply: Reply)
      modifies this, guards
      ensures (View(), reply) == Serve(old(View()), env, set_, now, v, markNow)
    {
      if set_.demo {
        return Refused(403);
      }
      if !set_.tokenOk {
        return Refused(401);
      }
      var rateKey := RateKey(env.device);
      var ok := guards.CheckRateLimit(rateKey, now);
      if !ok {
        var wait := guards.RetryAfterSec(rateKey, set_.retryAt);
        return TooManyRequests(wait);
      }
      var duplicate := guards.HasSeen(env.key);
      if duplicate {
        return Duplicate;
      }
      if !set_.compatible {
        return Refused(406);
      }
      if set_.overDeviceLimit {
        return Refused(403);
      }
      match v {
        case ValueError => return Refused(422);
        case Crashed => return ServerError;
        case Accepted =>
      }
      completed := completed + [Done(env, marks)];
      marks := if env.key == "" then marks else marks + [Mark(env.key, markNow, |guards.seenKeys|)];
      guards.MarkSeen(env.key, markNow);
      reply := Stored;
    }
  }

  // ---- when a key is remembered ----

  /** Some later mark found an oversized set and was more than the TTL younger. */
  ghost predicate Forgotten(marks: seq<Mark>, i: nat)
    requires i < |marks|
  {
    exists j :: i < j < |marks| && marks[j].size > TRIM_THRESHOLD && marks[i].time < marks[j].time - DEDUP_TTL_SEC
  }

  ghost predicate IsLatest(marks: seq<Mark>, i: nat)
    requires i < |marks|
  {
    forall j :: i < j < |marks| ==> marks[j].key != marks[i].key
  }

  ghost predicate Remembered(marks: seq<Mark>, key: string, time: real) {
    exists i :: 0 <= i < |marks| && marks[i].key == key && marks[i].time == time && IsLatest(marks, i)
        && !Forgotten(marks, i)
  }

  /** The dictionary is exactly the remembered marks, and every mark follows its completed ingest. */
  ghost predicate Inv(s: Server) {
    && (forall key, time :: key in s.seen && s.seen[key] == time <==> Remembered(s.marks, key, time))
    && (forall m :: m in s.marks ==> m.key != "" && exists d :: d in s.completed && d.env.key == m.key)
    && (forall d :: d in s.completed && d.env.key != "" ==> forall time :: !Remembered(d.marksSeen, d.env.key, time))
  }

  lemma MarkRemembers(marks: seq<Mark>, m: Mark, key: string, time: real)
    ensures Remembered(marks + [m], key, time) <==>
              if key == m.key then time == m.time
              else Remembered(marks, key, time) && !(m.size > TRIM_THRESHOLD && time < m.time - DEDUP_TTL_SEC)
  {
    var marks' := marks + [m];
    var n := |marks|;
    assert marks'[n] == m && IsLatest(marks', n) && !Forgotten(marks', n);
    forall i: nat | i < n
      ensures IsLatest(marks', i) <==> IsLatest(marks, i) && m.key != marks[i].key
      ensures Forgotten(marks', i) <==>
                Forgotten(marks, i) || (m.size > TRIM_THRESHOLD && marks[i].time < m.time - DEDUP_TTL_SEC)
    {
      assert forall j :: i < j < n ==> marks'[j] == marks[j];
      if Forgotten(marks, i) {
        var j :| i < j < n && marks[j].size > TRIM_THRESHOLD && marks[i].time < marks[j].time - DEDUP_TTL_SEC;
        assert marks'[j] == marks[j];
      }
    }
    if Remembered(marks', key, time) {
      var i :| 0 <= i < n + 1 && marks'[i].key == key && marks'[i].time == time && IsLatest(marks', i)
          && !Forgotten(marks', i);
      if i < n {
        assert marks[i] == marks'[i];
      }
    }
    if Remembered(marks, key, time) {
      var i :| 0 <= i < n && marks[i].key == key && marks[i].time == time && IsLatest(marks, i) && !Forgotten(marks, i);
      assert marks'[i] == marks[i];
    }
  }

  lemma FinishKeepsInv(s: Server, key: string, now: real)
    requires Inv(s) && exists d :: d in s.completed && d.env.key == key
    ensures Inv(Finish(s, key, now))
  {
    if key != "" {
      var s' := Finish(s, key, now);
      var m := Mark(key, now, |s.seen|);
      forall k, time ensures k in s'.seen && s'.seen[k] == time <==> Remembered(s'.marks, k, time) {
        MarkRemembers(s.marks, m, k, time);
        assert k in s.seen && s.seen[k] == time <==> Remembered(s.marks, k, time);
      }
    }
  }

  // ---- concurrent requests ----

  datatype Phase = Waiting(env: Envelope, set_: Setting) | Admitted(done: Done) | Ingested(env: Envelope)
  datatype Cluster = Cluster(s: Server, inFlight: map<nat, Phase>)

  datatype Step =
    | Arrives(id: nat, env: Envelope, set_: Setting, now: real)
    | Guards(id: nat)
    | Processes(id: nat, v: Verdict)
    | Finishes(id: nat, now: real)
    | Restarts

  predicate Enabled(c: Cluster, a: Step) {
    match a
    case Arrives(id, _, _, _) => id !in c.inFlight
    case Guards(id) => id in c.inFlight && c.inFlight[id].Waiting?
    case Processes(id, _) => id in c.inFlight && c.inFlight[id].Admitted?
    case Finishes(id, _) => id in c.inFlight && c.inFlight[id].Ingested?
    case Restarts => true
  }

  function Apply(c: Cluster, a: Step): Cluster
    requires Enabled(c, a)
  {
    match a
    case Arrives(id, env, set_, now) =>
      var (s', early) := Limited(c.s, env, set_, now);
      Cluster(s', if early.Some? then c.inFlight else c.inFlight[id := Waiting(env, set_)])
    case Guards(id) =>
      var env := c.inFlight[id].env;
      c.(inFlight := if Guarded(c.s, env, c.inFlight[id].set_).Some? then c.inFlight - {id}
                     else c.inFlight[id := Admitted(Done(env, c.s.marks))])
    case Processes(id, v) =>
      var (s', failed) := Process(c.s, c.inFlight[id].done, v);
      Cluster(s', if failed.Some? then c.inFlight - {id} else c.inFlight[id := Ingested(c.inFlight[id].done.env)])
    case Finishes(id, now) => Cluster(Finish(c.s, c.inFlight[id].env.key, now), c.inFlight - {id})
    case Restarts => Cluster(Restarted(c.s), map[])
  }

  ghost predicate ClusterInv(c: Cluster) {
    && Inv(c.s)
    && (forall id :: id in c.inFlight ==>
          match c.inFlight[id]
          case Waiting(_, _) => true
          case Admitted(d) => d.env.key != "" ==> forall time :: !Remembered(d.marksSeen, d.env.key, time)
          case Ingested(env) => exists d :: d in c.s.completed && d.env.key == env.key)
  }

  lemma StepKeepsInv(c: Cluster, a: Step)
    requires ClusterInv(c) && Enabled(c, a)
    ensures ClusterInv(Apply(c, a))
    ensures a.Guards? && Guarded(c.s, c.inFlight[a.id].env, c.inFlight[a.id].set_) == Some(Duplicate) ==>
              exists d :: d in c.s.completed && d.env.key == c.inFlight[a.id].env.key
  {
    hide Checked, RetryAfter, Remembered;
    match a
    case Arrives(id, env, set_, now) => assert Apply(c, a).s == c.s.(windows := Apply(c, a).s.windows);
    case Guards(id) => GuardKeepsInv(c, id);
    case Processes(id, v) => ProcessKeepsInv(c, id, v);
    case Finishes(id, now) => FinishKeepsInv(c.s, c.inFlight[id].env.key, now);
    case Restarts => NothingRemembered();
  }

  lemma GuardKeepsInv(c: Cluster, id: nat)
    requires ClusterInv(c) && Enabled(c, Guards(id))
    ensures ClusterInv(Apply(c, Guards(id)))
    ensures Guarded(c.s, c.inFlight[id].env, c.inFlight[id].set_) == Some(Duplicate) ==>
              exists d :: d in c.s.completed && d.env.key == c.inFlight[id].env.key
  {
    hide Remembered;
    var env := c.inFlight[id].env;
    if env.key in c.s.seen {
      RememberedIsMarked(c.s.marks, env.key, c.s.seen[env.key]);
    }
    forall time ensures Remembered(c.s.marks, env.key, time) ==> env.key in c.s.seen {}
  }

  lemma ProcessKeepsInv(c: Cluster, id: nat, v: Verdict)
    requires ClusterInv(c) && Enabled(c, Processes(id, v))
    ensures ClusterInv(Apply(c, Processes(id, v)))
  {
    hide Remembered;
    var done := c.inFlight[id].done;
    assert v.Accepted? ==> done in c.s.completed + [done];
  }

  lemma RememberedIsMarked(marks: seq<Mark>, key: string, time: real)
    requires Remembered(marks, key, time)
    ensures exists m :: m in marks && m.key == key
  {}

  lemma NothingRemembered()
    ensures forall key, time :: !Remembered([], key, time)
  {}

  ghost predicate IsRun(c: Cluster, run: seq<Step>)
    decreases |run|
  {
    run == [] || (Enabled(c, run[0]) && IsRun(Apply(c, run[0]), run[1..]))
  }

  function After(c: Cluster, run: seq<Step>): Cluster
    requires IsRun(c, run)
    decreases |run|
  {
    if run == [] then c else After(Apply(c, run[0]), run[1..])
  }

  lemma {:induction false} RunKeepsInv(c: Cluster, run: seq<Step>)
    requires ClusterInv(c) && IsRun(c, run)
    ensures ClusterInv(After(c, run))
    decreases |run|
  {
    if run == [] {
    } else {
      StepKeepsInv(c, run[0]);
      RunKeepsInv(Apply(c, run[0]), run[1..]);
    }
  }

  const FreshCluster := Cluster(FreshServer, map[])

  /** In any interleaving of requests and restarts, an ingest completes for a key only if its duplicate
      check found no remembered mark of that key. So if an earlier ingest of the key had been
      marked by then, in this process, a younger mark found the set oversized after the TTL. */
  lemma SecondIngestNeedsForgetting(run: seq<Step>, done: Done, i: nat)
    requires IsRun(FreshCluster, run) && done in After(FreshCluster, run).s.completed
    requires done.env.key != "" && i < |done.marksSeen| && done.marksSeen[i].key == done.env.key
    requires IsLatest(done.marksSeen, i)
    ensures exists j :: i < j < |done.marksSeen|
              && done.marksSeen[j].size > TRIM_THRESHOLD
              && done.marksSeen[i].time < done.marksSeen[j].time - DEDUP_TTL_SEC
  {
    assert ClusterInv(FreshCluster);
    RunKeepsInv(FreshCluster, run);
    assert !Remembered(done.marksSeen, done.env.key, done.marksSeen[i].time);
    assert Forgotten(done.marksSeen, i);
  }

  /** A "duplicate" answer implies an earlier completed ingest of the key. */
  lemma DuplicateImpliesCompleted(run: seq<Step>, env: Envelope, set_: Setting)
    requires IsRun(FreshCluster, run)
    requires Guarded(After(FreshCluster, run).s, env, set_) == Some(Duplicate)
    ensures exists d :: d in After(FreshCluster, run).s.completed && d.env.key == env.key
  {
    RunKeepsInv(FreshCluster, run);
    var s := After(FreshCluster, run).s;
    assert Remembered(s.marks, env.key, s.seen[env.key]);
  }

  /** The race the design accepts: two requests with one key, the second checked before the first
      is marked, are both ingested. */
  lemma OverlappingRequestsBothIngested(env: Envelope, now: real)
    ensures var ok := Setting(false, true, true, false, now);
      var run := [Arrives(0, env, ok, now), Guards(0), Arrives(1, env, ok, now), Guards(1), Processes(0, Accepted),
                  Processes(1, Accepted)];
      IsRun(FreshCluster, run) && |After(FreshCluster, run).s.completed| == 2
  {
    var ok := Setting(false, true, true, false, now);
    var c1 := Apply(FreshCluster, Arrives(0, env, ok, now));
    var c2 := Apply(c1, Guards(0));
    var c3 := Apply(c2, Arrives(1, env, ok, now));
    var c4 := Apply(c3, Guards(1));
    var c5 := Apply(c4, Processes(0, Accepted));
    var c6 := Apply(c5, Processes(1, Accepted));
    assert c2.inFlight == map[0 := Admitted(Done(env, []))];
    assert c4.inFlight == map[0 := Admitted(Done(env, [])), 1 := Admitted(Done(env, []))];
    assert |c6.s.completed| == 2;
    OneMore(c5, Processes(1, Accepted), []);
    OneMore(c4, Processes(0, Accepted), [Processes(1, Accepted)]);
    OneMore(c3, Guards(1), [Processes(0, Accepted), Processes(1, Accepted)]);
    OneMore(c2, Arrives(1, env, ok, now), [Guards(1), Processes(0, Accepted), Processes(1, Accepted)]);
    OneMore(c1, Guards(0), [Arrives(1, env, ok, now), Guards(1), Processes(0, Accepted), Processes(1, Accepted)]);
    OneMore(FreshCluster, Arrives(0, env, ok, now),
            [Guards(0), Arrives(1, env, ok, now), Guards(1), Processes(0, Accepted), Processes(1, Accepted)]);
  }

  lemma OneMore(c: Cluster, a: Step, run: seq<Step>)
    requires Enabled(c, a) && IsRun(Apply(c, a), run)
    ensures IsRun(c, [a] + run) && After(c, [a] + run) == After(Apply(c, a), run)
  {
    assert ([a] + run)[1..] == run;
  }

  // ---- one request at a time ----

  datatype Call = Call(env: Envelope, set_: Setting, now: real, v: Verdict, markNow: real)

  function ServeAll(s: Server, calls: seq<Call>): Server
    decreases |calls|
  {
    if calls == [] then s
    else ServeAll(Serve(s, calls[0].env, calls[0].set_, calls[0].now, calls[0].v, calls[0].markNow).0, calls[1..])
  }

  /** Only a stored request touches the store or the duplicate set, so a 422 never burns its key. */
  lemma OnlyStoredMarks(s: Server, c: Call, set_: Setting, later: real)
    requires Inv(s)
    ensures var (s', reply) := Serve(s, c.env, c.set_, c.now, c.v, c.markNow);
      && Inv(s')
      && (reply == Stored ==> s'.completed == s.completed + [Done(c.env, s.marks)])
      && (reply != Stored ==> s'.completed == s.completed && s'.seen == s.seen && s'.marks == s.marks)
      && (reply == Refused(422) ==> Arrive(s', c.env, set_, later).1 != Some(Duplicate))
      && (reply == Duplicate ==> exists d :: d in s.completed && d.env.key == c.env.key)
  {
    hide Checked, RetryAfter, Remembered, Marked;
    var (s1, early) := Arrive(s, c.env, c.set_, c.now);
    if c.env.key in s.seen {
      RememberedIsMarked(s.marks, c.env.key, s.seen[c.env.key]);
    }
    if early.None? {
      forall time ensures c.env.key != "" ==> !Remembered(s.marks, c.env.key, time) {}
      var done := Done(c.env, s1.marks);
      var s2 := Process(s1, done, c.v).0;
      if c.v.Accepted? {
        assert done in s2.completed;
        FinishKeepsInv(s2, c.env.key, c.markNow);
      }
    }
  }

  /** A request that passes the guards before the duplicate check is answered "duplicate" if and only if a mark of its
      key is remembered; the request right after a stored one always is. */
  lemma DuplicateIffRemembered(s: Server, env: Envelope, set_: Setting, now: real)
    requires Inv(s) && !set_.demo && set_.tokenOk && Checked(s.windows, RateKey(env.device), now).0
    ensures Arrive(s, env, set_, now).1 == Some(Duplicate) <==>
            env.key != "" && exists time :: Remembered(s.marks, env.key, time)
  {
    if env.key in s.seen {
      assert Remembered(s.marks, env.key, s.seen[env.key]);
    }
  }

  lemma RepeatIsDuplicate(s: Server, c: Call, set_: Setting, later: real)
    requires Serve(s, c.env, c.set_, c.now, c.v, c.markNow).1 == Stored && c.env.key != ""
    ensures var s' := Serve(s, c.env, c.set_, c.now, c.v, c.markNow).0;
      !set_.demo && set_.tokenOk && Checked(s'.windows, RateKey(c.env.device), later).0 ==>
        Arrive(s', c.env, set_, later).1 == Some(Duplicate)
  {
    hide Checked;
  }

  function KeysOf(completed: seq<Done>): seq<string> {
    if completed == [] then []
    else
      var last := completed[|completed| - 1].env.key;
      KeysOf(completed[..|completed| - 1]) + (if last == "" then [] else [last])
  }

  function MarkKeys(marks: seq<Mark>): seq<string> {
    seq(|marks|, i requires 0 <= i < |marks| => marks[i].key)
  }

  /** Handled one at a time, every completed ingest is marked before the next check. */
  ghost predicate InOrder(completed: seq<Done>, marks: seq<Mark>) {
    && MarkKeys(marks) == KeysOf(completed)
    && forall j :: 0 <= j < |completed| ==> MarkKeys(completed[j].marksSeen) == KeysOf(completed[..j])
  }

  lemma ServeEffect(s: Server, c: Call)
    ensures var (s', reply) := Serve(s, c.env, c.set_, c.now, c.v, c.markNow);
      && s'.completed == (if reply == Stored then s.completed + [Done(c.env, s.marks)] else s.completed)
      && s'.marks == (if reply == Stored && c.env.key != ""
                      then s.marks + [Mark(c.env.key, c.markNow, |s.seen|)] else s.marks)
  {}

  lemma ServeKeepsOrder(s: Server, c: Call, s': Server)
    requires InOrder(s.completed, s.marks) && s' == Serve(s, c.env, c.set_, c.now, c.v, c.markNow).0
    ensures InOrder(s'.completed, s'.marks)
  {
    ServeEffect(s, c);
    StoredKeepsOrder(s.completed, s.marks, Done(c.env, s.marks), Mark(c.env.key, c.markNow, |s.seen|));
  }

  lemma StoredKeepsOrder(completed: seq<Done>, marks: seq<Mark>, done: Done, m: Mark)
    requires InOrder(completed, marks) && done.marksSeen == marks && m.key == done.env.key
    ensures InOrder(completed + [done], if m.key == "" then marks else marks + [m])
  {
    var completed' := completed + [done];
    assert completed'[..|completed|] == completed;
    assert MarkKeys(marks + [m]) == MarkKeys(marks) + [m.key];
    forall j | 0 <= j < |completed'|
      ensures MarkKeys(completed'[j].marksSeen) == KeysOf(completed'[..j])
    {
      if j < |completed| {
        assert completed'[..j] == completed[..j];
      }
    }
  }

  lemma {:induction false} ServeAllInOrder(s: Server, calls: seq<Call>)
    requires Inv(s) && InOrder(s.completed, s.marks)
    ensures var s' := ServeAll(s, calls); Inv(s') && InOrder(s'.completed, s'.marks)
    decreases |calls|
  {
    if calls == [] {
    } else {
      var c := calls[0];
      OnlyStoredMarks(s, c, c.set_, c.now);
      var s' := Serve(s, c.env, c.set_, c.now, c.v, c.markNow).0;
      ServeKeepsOrder(s, c, s');
      ServeAllInOrder(s', calls[1..]);
    }
  }

  lemma {:induction false} KeyIsListed(completed: seq<Done>, i: nat)
    requires i < |completed| && completed[i].env.key != ""
    ensures completed[i].env.key in KeysOf(completed)
  {
    var n := |completed| - 1;
    if i < n {
      KeyIsListed(completed[..n], i);
    }
  }

  lemma LatestWithKey(marks: seq<Mark>, key: string) returns (i: nat)
    requires key in MarkKeys(marks)
    ensures i < |marks| && marks[i].key == key && IsLatest(marks, i)
  {
    i := |marks| - 1;
    while marks[i].key != key
      invariant 0 <= i < |marks| && forall j :: i < j < |marks| ==> marks[j].key != key
      decreases i
    {
      assert exists k :: 0 <= k < |marks| && MarkKeys(marks)[k] == key;
      i := i - 1;
    }
  }

  /** In a process that handles one request at a time, one key is ingested twice only if, in between,
      a mark found more than the trim size of keys and was more than the TTL younger. */
  lemma OnceUnlessForgotten(s: Server, i: nat, j: nat)
    requires Inv(s) && InOrder(s.completed, s.marks)
    requires i < j < |s.completed| && s.completed[i].env.key == s.completed[j].env.key != ""
    ensures var marks := s.completed[j].marksSeen;
      exists p, q :: 0 <= p < q < |marks| && marks[p].key == s.completed[i].env.key
        && marks[q].size > TRIM_THRESHOLD && marks[p].time < marks[q].time - DEDUP_TTL_SEC
  {
    var d := s.completed[j];
    assert s.completed[..j][i] == s.completed[i];
    KeyIsListed(s.completed[..j], i);
    var p := LatestWithKey(d.marksSeen, d.env.key);
    assert d in s.completed && !Remembered(d.marksSeen, d.env.key, d.marksSeen[p].time);
  }

  lemma AtMostOncePerKey(calls: seq<Call>, i: nat, j: nat)
    requires var done := ServeAll(FreshServer, calls).completed;
      i < j < |done| && done[i].env.key == done[j].env.key != ""
    ensures var done := ServeAll(FreshServer, calls).completed;
      var marks := done[j].marksSeen;
      exists p, q :: 0 <= p < q < |marks| && marks[p].key == done[i].env.key
        && marks[q].size > TRIM_THRESHOLD && marks[p].time < marks[q].time - DEDUP_TTL_SEC
  {
    ServeAllInOrder(FreshServer, calls);
    OnceUnlessForgotten(ServeAll(FreshServer, calls), i, j);
  }
}
