/** client/transport.py and the server behind it: delivery of envelopes with lost requests and replies,
    retries, throttling, server restarts and failing spool files. */
module Transport {
  import opened Wrappers
  import opened Sequences
  import opened SpoolFile
  import opened IngestApi
  import opened IngestGuards

  const MAX_PAYLOAD_BYTES := 500_000
  const SEND_ATTEMPTS := 2
  const MAX_THROTTLE_SEC := 300.0
  const DEFAULT_THROTTLE_SEC := 60.0

  /** What `json.loads` makes of a line: nothing, an object, or another value such as a number. */
  datatype Loaded = NotJson | Value | Object(env: Envelope)

  datatype Codec = Codec(dump: Envelope -> string, load: string -> Loaded)

  ghost predicate IsCodec(c: Codec) {
    forall e :: c.load(c.dump(e)) == Object(e)
  }

  // ---- one POST ----

  type ErrorCode = c: int | 400 <= c < 600 witness 500

  /** What happens to one POST. A request that reaches the server is served whole, and its reply
      may still be lost. Something in front of the handler may answer instead of it. */
  datatype Net =
    | Unreachable
    | Front(code: ErrorCode, retryAfter: Option<real>)
    | Reached(set_: Setting, now: real, v: Verdict, markNow: real, replyLost: bool)

  /** What the agent sees of one POST. */
  datatype Seen = NoReply | Status(code: int, retryAfter: Option<real>)

  datatype Outcome = Ok | Drop | Throttled(wait: real) | Retry

  /** None: the header is missing or not a number (an HTTP-date, say). */
  function RetryWait(header: Option<real>): (wait: real)
    ensures 0.0 < wait <= MAX_THROTTLE_SEC
  {
    match header
    case None => DEFAULT_THROTTLE_SEC
    case Some(w) => if w <= 0.0 then DEFAULT_THROTTLE_SEC else if w <= MAX_THROTTLE_SEC then w else MAX_THROTTLE_SEC
  }

  function OfSeen(seen: Seen): Outcome {
    match seen
    case NoReply => Retry
    case Status(code, retryAfter) =>
      if code < 400 then Ok
      else if code in {408, 425, 429} then Throttled(RetryWait(retryAfter))
      else if code < 500 then Drop
      else Retry
  }

  function SeenOf(r: Reply): Seen {
    match r
    case Stored => Status(200, None)
    case Duplicate => Status(200, None)
    case TooManyRequests(wait) => Status(429, Some(wait as real))
    case Refused(code) => Status(code, None)
    case ServerError => Status(500, None)
  }

  /** A body that is no envelope does not fit the request's schema and never reaches the handler. */
  function Posted(server: Server, body: Option<Envelope>, net: Net): (Server, Seen) {
    match net
    case Unreachable => (server, NoReply)
    case Front(code, retryAfter) => (server, Status(code, retryAfter))
    case Reached(set_, now, v, markNow, replyLost) =>
      var (server', reply) := match body
                              case None => (server, Refused(422))
                              case Some(env) => Serve(server, env, set_, now, v, markNow);
      (server', if replyLost then NoReply else SeenOf(reply))
  }

  /** What else happens at the server: requests of other agents, and restarts. */
  datatype ServerStep = Serves(call: Call) | ServerRestarts

  function ServerAfter(server: Server, steps: seq<ServerStep>): Server
    decreases |steps|
  {
    if steps == [] then server
    else
      var server' := match steps[0]
                     case Serves(c) => Serve(server, c.env, c.set_, c.now, c.v, c.markNow).0
                     case ServerRestarts => Restarted(server);
      ServerAfter(server', steps[1..])
  }

  // ---- agent and server together ----

  /** Readings of the agent's clock, the course of its POSTs, and what happened at the server before each of them. */
  datatype World = World(clock: nat -> real, net: nat -> Net, before: nat -> seq<ServerStep>)

  ghost predicate NeverRestarts(g: Config) {
    forall p: nat :: ServerRestarts !in g.world.before(p)
  }

  /** Why an envelope is no longer the agent's concern. */
  datatype Fate = Delivered | Rejected | Oversized | Corrupt | AppendFailed | SplitByReader | Swallowed | Evicted

  /** `append` is how much an append has written when it breaks off. */
  datatype FileFaults =
    FileFaults(append: Option<nat>, trimRead: bool, trimWrite: bool, flushRead: bool, flushWrite: bool)

  const NoFaults := FileFaults(None, false, false, false, false)

  /** History: one POST, and one append with the file that it found. */
  datatype Posting = Posting(body: Option<Envelope>, seen: Seen)
  datatype Appended = Appended(line: string, base: seq<string>, tail: string, faults: FileFaults) {
    /** All lines of the file right after the append, before any trim. */
    function Grown(): seq<string> {
      base + Lines(tail + Written(line, faults.append))
    }
  }

  /** The spool file is the lines up to its last newline, and what an append that broke off has left behind it. */
  datatype Sys = Sys(base: seq<string>, tail: string, throttledUntil: real, readings: nat, server: Server,
                     log: seq<Posting>, appends: seq<Appended>, sent: set<string>, fates: set<(string, Fate)>) {
    /** The lines as they are read. */
    const spool := base + Lines(tail)
  }

  datatype Config = Config(codec: Codec, world: World, offline: bool, nl: nat)

  function Attempted(g: Config, s: Sys, body: Option<Envelope>): (Sys, Outcome) {
    var p := |s.log|;
    var (server', seen) := Posted(ServerAfter(s.server, g.world.before(p)), body, g.world.net(p));
    var s' := s.(server := server', log := s.log + [Posting(body, seen)]);
    var outcome := OfSeen(seen);
    if outcome.Throttled?
    then (s'.(throttledUntil := g.world.clock(s.readings) + outcome.wait, readings := s.readings + 1), outcome)
    else (s', outcome)
  }

  function Tried(g: Config, s: Sys, env: Envelope, attempts: nat): (Sys, Option<Fate>)
    decreases attempts
  {
    if attempts == 0 then (s, None)
    else
      var (s', outcome) := Attempted(g, s, Some(env));
      match outcome
      case Ok => (s', Some(Delivered))
      case Drop => (s', Some(Rejected))
      case Throttled(_) => (s', None)
      case Retry => Tried(g, s', env, attempts - 1)
  }

  /** Whether `_deliver` goes to the network at all. */
  predicate NetOpen(g: Config, s: Sys) {
    !g.offline && g.world.clock(s.readings) >= s.throttledUntil
  }

  /** `_deliver` has looked at the clock, unless the agent is offline. */
  function Clocked(g: Config, s: Sys): Sys {
    if g.offline then s else s.(readings := s.readings + 1)
  }

  /** `_deliver` of an envelope; None means it is still to be delivered. */
  function Deliver(g: Config, s: Sys, env: Envelope): (Sys, Option<Fate>) {
    if NetOpen(g, s) then Tried(g, Clocked(g, s), env, SEND_ATTEMPTS) else (Clocked(g, s), None)
  }

  /** `_deliver` of a value that is no object: it raises after the first POST, whose failure cannot be logged without
      a message type. The second result is whether it raised. */
  function DeliverValue(g: Config, s: Sys): (Sys, bool) {
    if NetOpen(g, s) then (Attempted(g, Clocked(g, s), None).0, true) else (Clocked(g, s), false)
  }

  /** The spool file is as before. */
  predicate SameFile(s: Sys, s': Sys) {
    s'.base == s.base && s'.tail == s.tail
  }

  function WithFate(s: Sys, line: string, fate: Fate): Sys {
    s.(fates := s.fates + {(line, fate)})
  }

  /** How the turn of one buffered line ends. A line that stays blocks the lines after it. */
  datatype Turn = Handled | Stays | Raised

  function Replayed(g: Config, s: Sys, line: string): (Sys, Turn) {
    match g.codec.load(line)
    case NotJson => (WithFate(s, line, Corrupt), Handled)
    case Value =>
      var (s', raised) := DeliverValue(g, s);
      (s', if raised then Raised else Stays)
    case Object(env) =>
      var (s', fate) := Deliver(g, s, env);
      match fate
      case None => (s', Stays)
      case Some(f) => (WithFate(s', line, f), Handled)
  }

  /** Deliver a prefix of `lines`, oldest first: its length, and the turn that ended it. */
  function Drained(g: Config, s: Sys, lines: seq<string>): (Sys, nat, Turn)
    decreases |lines|
  {
    if lines == [] then (s, 0, Handled)
    else
      var (s1, turn) := Replayed(g, s, lines[0]);
      if turn != Handled then (s1, 0, turn)
      else
        var (s2, n, last) := Drained(g, s1, lines[1..]);
        (s2, n + 1, last)
  }

  /** An exception leaves the file alone. The second result is whether there was one. */
  function Flushed(g: Config, s: Sys, f: FileFaults): (Sys, bool) {
    if f.flushRead || s.spool == [] then (s, false)
    else
      var (s', n, last) := Drained(g, s, s.spool);
      (if last == Raised || f.flushWrite || n > |s.spool| then s' else s'.(base := s.spool[n..], tail := ""),
       last == Raised)
  }

  function Buffered(g: Config, s: Sys, line: string, f: FileFaults): Sys {
    var a := Appended(line, s.base, s.tail, f);
    var (base, tail) := AfterAppend(s.base, s.tail, line, g.nl, f.append, f.trimRead, f.trimWrite);
    var evicted := if f.append.Some? then {} else set l | l in a.Grown() && l !in base;
    s.(base := base, tail := tail, appends := s.appends + [a],
       fates := s.fates + (set l | l in evicted :: (l, Evicted)) + Unread(a))
  }

  /** The fate of an appended line that is not among the lines then read. */
  function Unread(a: Appended): set<(string, Fate)> {
    if a.faults.append.Some? then {(a.line, AppendFailed)}
    else if a.line in Lines(a.tail + a.line + "\n") then {}
    else {(a.line, if a.tail == "" then SplitByReader else Swallowed)}
  }

  /** What `send` answers, if it does. */
  datatype Answer = Cleared | Left | Exception

  function Sent(g: Config, s: Sys, env: Envelope, f: FileFaults): (Sys, Answer) {
    var line := g.codec.dump(env);
    var s0 := s.(sent := s.sent + {line});
    if Utf8Length(line) > MAX_PAYLOAD_BYTES then (WithFate(s0, line, Oversized), Cleared)
    else
      var (s1, fate) := Deliver(g, s0, env);
      if fate.Some? then
        var (s2, raised) := Flushed(g, WithFate(s1, line, fate.value), f);
        (s2, if raised then Exception else Cleared)
      else (Buffered(g, s1, line, f), Left)
  }

  // ---- the sender itself ----

  /** The agent's object, with the remote server and the history beside its own fields. */
  class Sender {
    const g: Config
    const buffer: Spool
    var throttledUntil: real
    var readings: nat
    var log: seq<Posting>
    var appends: seq<Appended>
    var server: Server
    var sent: set<string>
    var fates: set<(string, Fate)>

    ghost predicate Valid()
      reads this, buffer
    {
      buffer.Valid() && buffer.nl == g.nl
    }

    ghost function View(): Sys
      reads this, buffer
    {
      Sys(buffer.Parts().0, buffer.Parts().1, throttledUntil, readings, server, log, appends, sent, fates)
    }

    constructor (g: Config)
      requires g.nl <= 2
      ensures Valid() && View() == Initial && this.g == g && fresh(buffer)
    {
      this.g := g;
      buffer := new Spool(g.nl);
      throttledUntil, readings, log, appends := 0.0, 0, [], [];
      server, sent, fates := FreshServer, {}, {};
    }

    /** Every branch but the first asks the body for its message type. */
    method Attempt(body: Option<Envelope>) returns (outcome: Outcome, raised: bool)
      requires Valid()
      modifies this
      ensures Valid() && (View(), outcome) == Attempted(g, old(View()), body)
      ensures raised <==> body.None?
    {
      hide Serve, ServerAfter;
      server := ServerAfter(server, g.world.before(|log|));
      var (server', seen) := Posted(server, body, g.world.net(|log|));
      server, log, outcome := server', log + [Posting(body, seen)], OfSeen(seen);
      if outcome == Ok {
        return outcome, false;
      }
      if outcome.Throttled? {
        throttledUntil := g.world.clock(readings) + outcome.wait;
        readings := readings + 1;
      }
      raised := body.None?;
    }

    method DeliverOne(body: Option<Envelope>) returns (fate: Option<Fate>, raised: bool)
      requires Valid()
      modifies this
      ensures Valid()
      ensures body.Some? ==> (View(), fate) == Deliver(g, old(View()), body.value) && !raised
      ensures body.None? ==> (View(), raised) == DeliverValue(g, old(View())) && fate == None
    {
      hide Attempted;
      if g.offline {
        return None, false;
      }
      var now := g.world.clock(readings);
      readings := readings + 1;
      if now < throttledUntil {
        return None, false;
      }
      ghost var start := View();
      for attempt := 0 to SEND_ATTEMPTS
        invariant Valid()
        invariant body.Some? ==> Tried(g, start, body.value, SEND_ATTEMPTS) ==
                                   Tried(g, View(), body.value, SEND_ATTEMPTS - attempt)
        invariant body.None? ==> attempt == 0 && View() == start
      {
        var outcome, failed := Attempt(body);
        if failed {
          return None, true;
        }
        match outcome {
          case Ok => return Some(Delivered), false;
          case Drop => return Some(Rejected), false;
          case Throttled(_) => return None, false;
          case Retry =>
        }
      }
      return None, false;
    }

    method Replay(line: string) returns (turn: Turn)
      requires Valid()
      modifies this
      ensures Valid() && (View(), turn) == Replayed(g, old(View()), line)
    {
      hide Deliver, DeliverValue;
      var loaded := g.codec.load(line);
      if loaded.NotJson? {
        fates := fates + {(line, Corrupt)};
        return Handled;
      }
      var fate, raised := DeliverOne(if loaded.Object? then Some(loaded.env) else None);
      if raised {
        return Raised;
      }
      if fate.None? {
        return Stays;
      }
      fates := fates + {(line, fate.value)};
      return Handled;
    }

    /** The loop of `flush_buffer` over the lines that were read. */
    method DrainLines(lines: seq<string>) returns (handled: nat, remaining: seq<string>, raised: bool)
      requires Valid()
      modifies this
      ensures var (s', n, last) := Drained(g, old(View()), lines);
        Valid() && View() == s' && handled == n <= |lines| && raised == (last == Raised)
      ensures !raised ==> remaining == lines[handled..]
    {
      hide Drained, Replayed, DrainsTo;
      ghost var (end, n, last) := Drained(g, View(), lines);
      DrainedIsPrefix(g, View(), lines);
      DrainStarts(g, View(), lines);
      handled, remaining, raised := 0, [], false;
      var blocked := false;
      for i := 0 to |lines|
        invariant Valid()
        invariant if blocked
                  then handled == n <= i && View() == end && last == Stays && remaining == lines[n..i]
                  else handled == i && remaining == [] && DrainsTo(g, View(), lines, i, end, n, last)
      {
        if blocked {
          remaining := remaining + [lines[i]];
        } else {
          DrainedUnfolds(g, View(), lines, i, end, n, last);
          var turn := Replay(lines[i]);
          match turn {
            case Raised => return handled, remaining, true;
            case Handled => handled := handled + 1;
            case Stays =>
              blocked := true;
              remaining := remaining + [lines[i]];
          }
        }
      }
      if !blocked {
        DrainEnds(g, View(), lines, end, n, last);
      }
    }

    /** `raised`: the exception of a line passes through, before the file is rewritten. */
    method FlushBuffer(f: FileFaults) returns (handled: nat, raised: bool)
      requires Valid()
      modifies this, buffer
      ensures Valid() && (View(), raised) == Flushed(g, old(View()), f)
      ensures !raised ==> handled == if f.flushRead then 0 else Drained(g, old(View()), old(View()).spool).1
    {
      hide Drained, Lines, Head, Tail, JsonText, HasBreak, IsBlank;
      EmptyDrain(g, View());
      var lines := buffer.Read(f.flushRead);
      if lines == [] {
        return 0, false;
      }
      var remaining;
      handled, remaining, raised := DrainLines(lines);
      if raised {
        return;
      }
      LinesAreJson(buffer.text.GetOr(""));
      buffer.Write(remaining, f.flushWrite);
    }

    method AppendBuffer(line: string, f: FileFaults)
      requires Valid() && JsonText(line)
      modifies this, buffer
      ensures Valid() && View() == Buffered(g, old(View()), line, f)
    {
      hide LongestFit, Lines, Head, Tail, Written, AfterAppend, JsonText;
      var a := Appended(line, Lines(Head(buffer.text.GetOr(""))), Tail(buffer.text.GetOr("")), f);
      appends := appends + [a];
      buffer.Append(line, f.append, f.trimRead, f.trimWrite);
      var kept := Lines(Head(buffer.text.GetOr("")));
      var evicted := if f.append.Some? then {} else set l | l in a.Grown() && l !in kept;
      fates := fates + (set l | l in evicted :: (l, Evicted)) + Unread(a);
    }

    /** Cleared: delivered or dropped. Left: buffered for a later retry. */
    method Send(env: Envelope, f: FileFaults) returns (answer: Answer)
      requires Valid() && JsonText(g.codec.dump(env))
      modifies this, buffer
      ensures Valid() && (View(), answer) == Sent(g, old(View()), env, f)
    {
      hide Deliver, Flushed, Buffered;
      var line := g.codec.dump(env);
      sent := sent + {line};
      if Utf8Length(line) > MAX_PAYLOAD_BYTES {
        fates := fates + {(line, Oversized)};
        return Cleared;
      }
      var fate, _ := DeliverOne(Some(env));
      if fate.Some? {
        fates := fates + {(line, fate.value)};
        var _, raised := FlushBuffer(f);
        return if raised then Exception else Cleared;
      }
      AppendBuffer(line, f);
      return Left;
    }
  }

  /** Draining `lines` from position `i` in state `s` ends in `end`, with `n` lines handled in all. */
  ghost predicate DrainsTo(g: Config, s: Sys, lines: seq<string>, i: nat, end: Sys, n: int, last: Turn)
    requires i <= |lines|
  {
    Drained(g, s, lines[i..]) == (end, n - i, last)
  }

  lemma DrainStarts(g: Config, s: Sys, lines: seq<string>)
    ensures var (end, n, last) := Drained(g, s, lines); DrainsTo(g, s, lines, 0, end, n, last)
  {
    assert lines[0..] == lines;
  }

  lemma DrainEnds(g: Config, s: Sys, lines: seq<string>, end: Sys, n: int, last: Turn)
    requires DrainsTo(g, s, lines, |lines|, end, n, last)
    ensures end == s && n == |lines| && last == Handled
  {}

  lemma DrainedUnfolds(g: Config, s: Sys, lines: seq<string>, i: nat, end: Sys, n: int, last: Turn)
    requires i < |lines| && DrainsTo(g, s, lines, i, end, n, last)
    ensures var (s1, turn) := Replayed(g, s, lines[i]);
      if turn == Handled then DrainsTo(g, s1, lines, i + 1, end, n, last) else end == s1 && n == i && last == turn
  {
    assert lines[i..][1..] == lines[i + 1..];
  }

  /** A flush that stops does so in front of a line, and one that does not has handled every line. */
  lemma {:induction false} DrainedIsPrefix(g: Config, s: Sys, lines: seq<string>)
    ensures var (s', n, last) := Drained(g, s, lines);
      n <= |lines| && SameFile(s, s') && (last == Handled <==> n == |lines|)
    decreases |lines|
  {
    hide Replayed;
    if lines == [] {
    } else {
      ReplayedKeepsSpool(g, s, lines[0]);
      var (s1, turn) := Replayed(g, s, lines[0]);
      if turn == Handled {
        DrainedIsPrefix(g, s1, lines[1..]);
      }
    }
  }

  lemma ReplayedKeepsSpool(g: Config, s: Sys, line: string)
    ensures SameFile(s, Replayed(g, s, line).0)
  {
    if g.codec.load(line).Object? {
      DeliverKeepsSpool(g, s, g.codec.load(line).env);
    }
  }

  lemma DeliverKeepsSpool(g: Config, s: Sys, env: Envelope)
    ensures SameFile(s, Deliver(g, s, env).0)
  {
    hide Tried;
    TriedKeepsSpool(g, Clocked(g, s), env, SEND_ATTEMPTS);
  }

  lemma {:induction false} TriedKeepsSpool(g: Config, s: Sys, env: Envelope, attempts: nat)
    ensures SameFile(s, Tried(g, s, env, attempts).0)
    decreases attempts
  {
    if attempts > 0 {
      var (s', outcome) := Attempted(g, s, Some(env));
      if outcome.Retry? {
        TriedKeepsSpool(g, s', env, attempts - 1);
      }
    }
  }

  // ---- runs ----

  datatype Step =
    | Send(env: Envelope, faults: FileFaults)
    | Flush(faults: FileFaults)
    | AgentRestarts

  function Apply(g: Config, s: Sys, a: Step): Sys {
    match a
    case Send(env, f) => Sent(g, s, env, f).0
    case Flush(f) => Flushed(g, s, f).0
    case AgentRestarts => s.(throttledUntil := 0.0)
  }

  function After(g: Config, s: Sys, run: seq<Step>): Sys
    decreases |run|
  {
    if run == [] then s else After(g, Apply(g, s, run[0]), run[1..])
  }

  const Initial := Sys([], "", 0.0, 0, FreshServer, [], [], {}, {})

  // ---- what every step keeps ----

  /** The server completed an ingest of this envelope, or of one with its key. */
  ghost predicate IngestedOnce(server: Server, env: Envelope) {
    exists d :: d in server.completed && (d.env == env || (env.key != "" && d.env.key == env.key))
  }

  ghost predicate Accepted2xx(log: seq<Posting>, env: Envelope) {
    exists p :: p in log && p.body == Some(env) && p.seen.Status? && p.seen.code < 400
  }

  ghost predicate Refused4xx(log: seq<Posting>, env: Envelope) {
    exists p :: p in log && p.body == Some(env) && p.seen.Status? && 400 <= p.seen.code < 500
        && p.seen.code !in {408, 425, 429}
  }

  /** What has to go for the rest to fit both caps. */
  function Overflow(lines: seq<string>, nl: nat): seq<string> {
    LongestFitIsLongest(lines, nl);
    lines[..|lines| - |LongestFit(lines, nl)|]
  }

  /** What a recorded fate means: Delivered only by a 2xx for a completed ingest, Rejected only by a non-retryable
      4xx, Oversized only above the size cap, Corrupt only if not JSON, SplitByReader only for a line that
      `splitlines` takes apart, AppendFailed only by an append of this line that broke off, Swallowed only by an
      append of it to a file that an earlier append had left torn, and Evicted only from the head that an append pushed
      over a cap and its trim took off. */
  ghost predicate Justified(g: Config, s: Sys, line: string, fate: Fate) {
    match fate
    case Delivered =>
      && g.codec.load(line).Object?
      && Accepted2xx(s.log, g.codec.load(line).env) && IngestedOnce(s.server, g.codec.load(line).env)
    case Rejected => g.codec.load(line).Object? && Refused4xx(s.log, g.codec.load(line).env)
    case Oversized => Utf8Length(line) > MAX_PAYLOAD_BYTES
    case Corrupt => g.codec.load(line).NotJson?
    case SplitByReader => !Storable(line)
    case AppendFailed => exists a :: a in s.appends && a.line == line && a.faults.append.Some?
    case Swallowed =>
      exists i, k :: 0 <= i < k < |s.appends| && s.appends[i].faults.append.Some?
        && s.appends[k].line == line && s.appends[k].tail != ""
    case Evicted =>
      exists a :: a in s.appends && a.faults.append.None? && !a.faults.trimRead && !a.faults.trimWrite
        && !Fits(a.Grown(), g.nl) && line in Overflow(a.Grown(), g.nl)
  }

  ghost predicate FatesOk(g: Config, s: Sys) {
    && IngestApi.Inv(s.server)
    && forall line, fate :: (line, fate) in s.fates ==> Justified(g, s, line, fate)
  }

  /** A piece of the tail does not count: the next append makes another line of it. */
  ghost predicate NothingLost(s: Sys, sent: set<string>) {
    forall line :: line in sent ==> line in s.base || exists fate :: (line, fate) in s.fates
  }

  /** There is a tail only after an append that broke off. */
  ghost predicate TailOk(s: Sys) {
    s.tail != "" ==> exists i :: 0 <= i < |s.appends| && s.appends[i].faults.append.Some?
  }

  /** Nothing handed to `send` is lost silently, and every recorded reason is true. */
  ghost predicate Inv(g: Config, s: Sys) {
    FatesOk(g, s) && NothingLost(s, s.sent) && TailOk(s)
  }

  /** Every completed ingest stays, and with no restart the marks stay in the order of ingests. */
  ghost predicate ServerGrows(g: Config, before: Server, after: Server) {
    && IngestApi.Inv(after)
    && before.completed <= after.completed
    && (NeverRestarts(g) && InOrder(before.completed, before.marks) ==> InOrder(after.completed, after.marks))
  }

  /** History only grows. */
  ghost predicate Grows(g: Config, s: Sys, s': Sys) {
    ServerGrows(g, s.server, s'.server) && s.log <= s'.log && s.appends <= s'.appends
  }

  lemma GrowsTwice(g: Config, s: Sys, s1: Sys, s2: Sys)
    requires Grows(g, s, s1) && Grows(g, s1, s2)
    ensures Grows(g, s, s2)
  {}

  lemma ServeGrows(g: Config, s: Server, c: Call)
    requires IngestApi.Inv(s)
    ensures ServerGrows(g, s, Serve(s, c.env, c.set_, c.now, c.v, c.markNow).0)
    ensures OfSeen(SeenOf(Serve(s, c.env, c.set_, c.now, c.v, c.markNow).1)) == Ok ==>
              IngestedOnce(Serve(s, c.env, c.set_, c.now, c.v, c.markNow).0, c.env)
  {
    hide Serve, InOrder;
    OnlyStoredMarks(s, c, c.set_, c.now);
    ReplyCodes(s, c);
    var (s', reply) := Serve(s, c.env, c.set_, c.now, c.v, c.markNow);
    if InOrder(s.completed, s.marks) {
      ServeKeepsOrder(s, c, s');
    }
    if reply == Stored {
      assert s'.completed[|s.completed|] == Done(c.env, s.marks);
    }
  }

  lemma ReplyCodes(s: Server, c: Call)
    ensures var reply := Serve(s, c.env, c.set_, c.now, c.v, c.markNow).1;
      (reply.Refused? ==> reply.code in {401, 403, 406, 422}) && (reply == Duplicate ==> c.env.key != "")
  {
    hide Checked, RetryAfter, Marked;
  }

  lemma {:induction false} ServerAfterGrows(g: Config, server: Server, p: nat, steps: seq<ServerStep>)
    requires IngestApi.Inv(server)
    requires forall a :: a in steps ==> a in g.world.before(p)
    ensures ServerGrows(g, server, ServerAfter(server, steps))
    decreases |steps|
  {
    hide Serve, InOrder;
    if steps == [] {
    } else {
      assert steps[0] in steps && forall a :: a in steps[1..] ==> a in steps;
      match steps[0] {
        case Serves(c) =>
          ServeGrows(g, server, c);
          ServerAfterGrows(g, Serve(server, c.env, c.set_, c.now, c.v, c.markNow).0, p, steps[1..]);
        case ServerRestarts =>
          RestartKeepsInv(server);
          ServerAfterGrows(g, Restarted(server), p, steps[1..]);
      }
    }
  }

  lemma RestartKeepsInv(server: Server)
    requires IngestApi.Inv(server)
    ensures IngestApi.Inv(Restarted(server)) && Restarted(server).completed == server.completed
  {
    NothingRemembered();
  }

  lemma PostGrows(g: Config, s: Sys, body: Option<Envelope>)
    requires IngestApi.Inv(s.server)
    ensures var (s', outcome) := Attempted(g, s, body);
      && Grows(g, s, s') && s'.appends == s.appends
      && (outcome == Ok ==> body.Some? && IngestedOnce(s'.server, body.value) && Accepted2xx(s'.log, body.value))
      && (outcome == Drop && body.Some? ==> Refused4xx(s'.log, body.value))
      && SameFile(s, s') && s'.sent == s.sent && s'.fates == s.fates
  {
    hide Serve, ServerAfter, InOrder;
    var p := |s.log|;
    var server := ServerAfter(s.server, g.world.before(p));
    ServerAfterGrows(g, s.server, p, g.world.before(p));
    var s' := Attempted(g, s, body).0;
    assert s'.log[p] in s'.log;
    match g.world.net(p)
    case Unreachable =>
    case Front(_, _) =>
    case Reached(set_, now, v, markNow, _) =>
      if body.Some? {
        ServeGrows(g, server, Call(body.value, set_, now, v, markNow));
      }
  }

  /** What one delivery does to the history, and what its fate rests on. */
  ghost predicate DeliverOk(g: Config, s: Sys, env: Envelope, s': Sys, fate: Option<Fate>) {
    && Grows(g, s, s') && s'.appends == s.appends
    && SameFile(s, s') && s'.sent == s.sent && s'.fates == s.fates
    && match fate
       case None => true
       case Some(Delivered) => IngestedOnce(s'.server, env) && Accepted2xx(s'.log, env)
       case Some(Rejected) => Refused4xx(s'.log, env)
       case _ => false
  }

  lemma {:induction false} TriedGrows(g: Config, s: Sys, env: Envelope, attempts: nat)
    requires IngestApi.Inv(s.server)
    ensures DeliverOk(g, s, env, Tried(g, s, env, attempts).0, Tried(g, s, env, attempts).1)
    decreases attempts
  {
    hide Attempted, IngestedOnce, Accepted2xx, Refused4xx, InOrder;
    if attempts > 0 {
      PostGrows(g, s, Some(env));
      var (s', outcome) := Attempted(g, s, Some(env));
      if outcome.Retry? {
        TriedGrows(g, s', env, attempts - 1);
      }
    }
  }

  lemma DeliverGrows(g: Config, s: Sys, env: Envelope)
    requires IngestApi.Inv(s.server)
    ensures DeliverOk(g, s, env, Deliver(g, s, env).0, Deliver(g, s, env).1)
  {
    hide Tried, IngestedOnce, Accepted2xx, Refused4xx, InOrder;
    TriedGrows(g, Clocked(g, s), env, SEND_ATTEMPTS);
  }

  /** A justified fate stays so as the history grows. */
  lemma StaysJustified(g: Config, s: Sys, s': Sys, line: string, fate: Fate)
    requires Justified(g, s, line, fate) && Grows(g, s, s')
    ensures Justified(g, s', line, fate)
  {
    hide InOrder, Overflow;
    assert forall d :: d in s.server.completed ==> d in s'.server.completed;
    assert forall p :: p in s.log ==> p in s'.log;
    assert forall a :: a in s.appends ==> a in s'.appends;
  }

  lemma FatesStayOk(g: Config, s: Sys, s': Sys)
    requires FatesOk(g, s) && Grows(g, s, s') && s'.fates == s.fates
    ensures FatesOk(g, s')
  {
    hide Justified;
    forall line, fate | (line, fate) in s'.fates
      ensures Justified(g, s', line, fate)
    {
      StaysJustified(g, s, s', line, fate);
    }
  }

  lemma FateIsOk(g: Config, s: Sys, line: string, fate: Fate)
    requires FatesOk(g, s) && Justified(g, s, line, fate)
    ensures FatesOk(g, WithFate(s, line, fate))
  {
    FatesSurvive(g, s, WithFate(s, line, fate).fates);
  }

  /** Whether a fate is justified does not depend on the other fates, nor on spool, clock or what was sent. */
  lemma FatesSurvive(g: Config, s: Sys, fates: set<(string, Fate)>)
    requires forall line, fate :: (line, fate) in fates ==> Justified(g, s, line, fate)
    ensures forall line, fate :: (line, fate) in fates ==> Justified(g, s.(fates := fates), line, fate)
  {}

  ghost predicate Settled(s: Sys, line: string) {
    (line, Delivered) in s.fates || (line, Rejected) in s.fates || (line, Corrupt) in s.fates
  }

  /** A flush handles a prefix: each handled line gets a fate, and no other line does. */
  ghost predicate PrefixHandled(s: Sys, s': Sys, lines: seq<string>, n: nat) {
    && n <= |lines| && SameFile(s, s') && s'.sent == s.sent && s.fates <= s'.fates
    && (forall i :: 0 <= i < n ==> Settled(s', lines[i]))
    && (forall line, fate :: (line, fate) in s'.fates && (line, fate) !in s.fates ==> line in lines[..n])
  }

  lemma HandledOneMore(s: Sys, s1: Sys, s2: Sys, lines: seq<string>, n: nat, fate: Fate)
    requires lines != [] && PrefixHandled(s1, s2, lines[1..], n) && (fate.Delivered? || fate.Rejected? || fate.Corrupt?)
    requires SameFile(s, s1) && s1.sent == s.sent && s1.fates == s.fates + {(lines[0], fate)}
    ensures PrefixHandled(s, s2, lines, n + 1)
  {
    assert lines[..n + 1] == [lines[0]] + lines[1..][..n];
    assert forall i :: 0 < i < n + 1 ==> lines[i] == lines[1..][i - 1];
    assert (lines[0], fate) in s2.fates;
  }

  lemma ReplayedKeepsFates(g: Config, s: Sys, line: string)
    requires FatesOk(g, s)
    ensures var (s', turn) := Replayed(g, s, line);
      && FatesOk(g, s') && Grows(g, s, s')
      && SameFile(s, s') && s'.sent == s.sent && s'.appends == s.appends
      && if turn == Handled
         then exists fate ::
                s'.fates == s.fates + {(line, fate)} && (fate.Delivered? || fate.Rejected? || fate.Corrupt?)
         else s'.fates == s.fates
  {
    hide Attempted, Deliver, FatesOk, InOrder;
    FatesServer(g, s);
    match g.codec.load(line)
    case NotJson => FateIsOk(g, s, line, Corrupt);
    case Value =>
      var s' := DeliverValue(g, s).0;
      PostGrows(g, Clocked(g, s), None);
      FatesStayOk(g, s, s');
    case Object(env) =>
      DeliverGrows(g, s, env);
      var (s', fate) := Deliver(g, s, env);
      FatesStayOk(g, s, s');
      if fate.Some? {
        FateIsOk(g, s', line, fate.value);
      }
  }

  lemma FatesServer(g: Config, s: Sys)
    requires FatesOk(g, s)
    ensures IngestApi.Inv(s.server)
  {}

  lemma {:induction false} DrainedKeepsFates(g: Config, s: Sys, lines: seq<string>)
    requires FatesOk(g, s)
    ensures var (s', n, _) := Drained(g, s, lines);
      FatesOk(g, s') && Grows(g, s, s') && PrefixHandled(s, s', lines, n)
    decreases |lines|
  {
    hide Replayed, FatesOk, InOrder;
    FatesServer(g, s);
    if lines == [] {
    } else {
      ReplayedKeepsFates(g, s, lines[0]);
      var (s1, turn) := Replayed(g, s, lines[0]);
      if turn == Handled {
        var fate :| s1.fates == s.fates + {(lines[0], fate)} && (fate.Delivered? || fate.Rejected? || fate.Corrupt?);
        DrainedKeepsFates(g, s1, lines[1..]);
        var (s2, n, _) := Drained(g, s1, lines[1..]);
        HandledOneMore(s, s1, s2, lines, n, fate);
        GrowsTwice(g, s, s1, s2);
      }
    }
  }

  /** Every line of `before` is handled from `s` on, and `line` is next. */
  ghost predicate Reaches(g: Config, s: Sys, before: seq<string>, s1: Sys) {
    Drained(g, s, before) == (s1, |before|, Handled)
  }

  /** The first `n` lines are handled from `s` on, and in the state that this leaves the next one is JSON and fails:
      a value raises if the network is open, and everything else stays. */
  ghost predicate StopsAt(g: Config, s: Sys, lines: seq<string>, n: nat, end: Sys, last: Turn)
    requires n < |lines|
  {
    var s1 := Drained(g, s, lines[..n]).0;
    && Reaches(g, s, lines[..n], s1)
    && match g.codec.load(lines[n])
       case NotJson => false
       case Value => end == DeliverValue(g, s1).0 && last == (if NetOpen(g, s1) then Raised else Stays)
       case Object(env) => Deliver(g, s1, env) == (end, None) && last == Stays
  }

  /** A drain that stops short stops at a line whose delivery was tried, or held back by the throttle, right then. */
  lemma {:induction false} DrainStops(g: Config, s: Sys, lines: seq<string>)
    ensures var (end, n, last) := Drained(g, s, lines);
      if n < |lines| then StopsAt(g, s, lines, n, end, last) else n == |lines| && Reaches(g, s, lines, end)
    decreases |lines|
  {
    hide Deliver, NetOpen;
    if lines == [] {
    } else {
      var (s1, turn) := Replayed(g, s, lines[0]);
      var n := Drained(g, s, lines).1;
      if turn == Handled {
        DrainStops(g, s1, lines[1..]);
        if n < |lines| {
          assert lines[..n][0] == lines[0] && lines[..n][1..] == lines[1..][..n - 1] && lines[1..][n - 1] == lines[n];
        }
      } else {
        assert lines[..0] == [];
      }
    }
  }

  /** And it does stop there. */
  lemma {:induction false} DrainReaches(g: Config, s: Sys, lines: seq<string>, i: nat, s1: Sys)
    requires i < |lines| && Reaches(g, s, lines[..i], s1) && g.codec.load(lines[i]).Value?
    ensures var (end, n, last) := Drained(g, s, lines); n == i && (last == Raised <==> NetOpen(g, s1))
    decreases i
  {
    hide Deliver, NetOpen;
    if i == 0 {
      assert lines[..0] == [];
    } else {
      assert lines[..i][0] == lines[0] && lines[..i][1..] == lines[1..][..i - 1];
      DrainReaches(g, Replayed(g, s, lines[0]).0, lines[1..], i - 1, s1);
    }
  }

  /** A flush leaves exactly the suffix that starts at the first undelivered line; if it raised, or the file could
      not be read or rewritten, the old spool stays, with the lines that were handled still in it. */
  lemma FlushLeavesSuffix(g: Config, s: Sys, f: FileFaults)
    requires Inv(g, s)
    ensures var s' := Flushed(g, s, f).0;
      Inv(g, s') && Grows(g, s, s') && s'.sent == s.sent && s.fates <= s'.fates
    ensures var (s', raised) := Flushed(g, s, f);
      var n := if f.flushRead then 0 else Drained(g, s, s.spool).1;
      && PrefixHandled(s, s'.(base := s.base, tail := s.tail), s.spool, n)
      && s'.spool == (if raised || f.flushRead || f.flushWrite then s.spool else s.spool[n..])
      && (!f.flushRead && n < |s.spool| ==>
            StopsAt(g, s, s.spool, n, s'.(base := s.base, tail := s.tail), if raised then Raised else Stays))
  {
    hide Drained, FatesOk, InOrder, StopsAt;
    FatesServer(g, s);
    DrainedKeepsFates(g, s, s.spool);
    DrainedIsPrefix(g, s, s.spool);
    var (s', n, _) := Drained(g, s, s.spool);
    if !f.flushRead {
      DrainStops(g, s, s.spool);
      FileIsNoFate(g, s', Flushed(g, s, f).0.base, Flushed(g, s, f).0.tail);
      SuffixLosesNothing(s, s', n);
      ClosedSpool(s'.(base := s.spool[n..], tail := ""));
      if s.spool == [] {
        EmptyDrain(g, s);
      }
    }
  }

  /** A flush raises if and only if it comes to a line that is JSON but no object while the network is open. Before the
      call, that is a question of the lines in front of it. */
  lemma FlushRaisesAtValue(g: Config, s: Sys, f: FileFaults)
    ensures Flushed(g, s, f).1 <==>
      && !f.flushRead
      && exists i, s1 :: 0 <= i < |s.spool| && g.codec.load(s.spool[i]).Value?
           && Reaches(g, s, s.spool[..i], s1) && NetOpen(g, s1)
  {
    hide Drained, NetOpen;
    DrainStops(g, s, s.spool);
    DrainedIsPrefix(g, s, s.spool);
    if !f.flushRead && s.spool != [] {
      forall i, s1 | 0 <= i < |s.spool| && g.codec.load(s.spool[i]).Value? && Reaches(g, s, s.spool[..i], s1)
          && NetOpen(g, s1)
        ensures Flushed(g, s, f).1
      {
        DrainReaches(g, s, s.spool, i, s1);
      }
      if Flushed(g, s, f).1 {
        var n := Drained(g, s, s.spool).1;
        assert Reaches(g, s, s.spool[..n], Drained(g, s, s.spool[..n]).0);
      }
    }
  }

  lemma ClosedSpool(s: Sys)
    requires s.tail == ""
    ensures s.spool == s.base
  {
    PlusEmpty(s.base);
  }

  lemma EmptyDrain(g: Config, s: Sys)
    ensures Drained(g, s, []) == (s, 0, Handled)
  {}

  lemma FileIsNoFate(g: Config, s: Sys, base: seq<string>, tail: string)
    requires FatesOk(g, s)
    ensures FatesOk(g, s.(base := base, tail := tail))
  {
    FatesStayOk(g, s, s.(base := base, tail := tail));
  }

  lemma SuffixLosesNothing(s: Sys, s': Sys, n: nat)
    requires NothingLost(s, s.sent) && PrefixHandled(s, s', s.spool, n)
    ensures NothingLost(s', s.sent) && NothingLost(s'.(base := s.spool[n..], tail := ""), s.sent)
  {
    forall line | line in s.sent
      ensures line in s.spool[n..] || exists fate :: (line, fate) in s'.fates
    {
      if i :| 0 <= i < |s.base| && s.base[i] == line {
        assert s.spool[i] == line;
        if i >= n {
          assert s.spool[n..][i - n] == line;
        } else {
          assert Settled(s', line);
        }
      }
    }
  }

  /** An append records its line, and whatever it pushes out over a cap. */
  lemma BufferedKeepsInv(g: Config, s: Sys, line: string, f: FileFaults, sent: set<string>)
    requires FatesOk(g, s) && NothingLost(s, sent) && TailOk(s)
    ensures var s' := Buffered(g, s, line, f);
      FatesOk(g, s') && Grows(g, s, s') && NothingLost(s', sent + {line}) && s'.sent == s.sent && TailOk(s')
  {
    hide Justified, InOrder, LongestFit, IsBlank, HasBreak, Lines, Head, NothingLost;
    FatesServer(g, s);
    var s' := Buffered(g, s, line, f);
    var a := Appended(line, s.base, s.tail, f);
    var s1 := s.(appends := s.appends + [a]);
    assert s1.appends[|s.appends|] == a;
    FatesStayOk(g, s, s1);
    forall l, fate | (l, fate) in s'.fates
      ensures Justified(g, s1, l, fate)
    {
      if (l, fate) !in s.fates {
        NewFateIsJustified(g, s, line, f, l, fate);
      }
    }
    FatesSurvive(g, s1, s'.fates);
    FileIsNoFate(g, s1.(fates := s'.fates), s'.base, s'.tail);
    BufferedLosesNothing(g, s, line, f, sent);
    WholeAppendCloses(s.tail, line, f);
  }

  /** An append that does not break off ends the file with a newline. */
  lemma WholeAppendCloses(tail: string, line: string, f: FileFaults)
    ensures f.append.None? ==>
      var more := tail + Written(line, f.append);
      more == tail + line + "\n" && Tail(more) == "" && Head(more) == more
  {
    if f.append.None? {
      PlusIsAssociative(tail, line, "\n");
      TerminatedParts(tail + line + "\n");
    }
  }

  lemma NewFateIsJustified(g: Config, s: Sys, line: string, f: FileFaults, l: string, fate: Fate)
    requires (l, fate) in Buffered(g, s, line, f).fates && (l, fate) !in s.fates && TailOk(s)
    ensures Justified(g, s.(appends := s.appends + [Appended(line, s.base, s.tail, f)]), l, fate)
  {
    hide LongestFit, IsBlank, HasBreak, Lines, Head;
    var a := Appended(line, s.base, s.tail, f);
    var appends := s.appends + [a];
    assert appends[|s.appends|] == a && forall i :: 0 <= i < |s.appends| ==> appends[i] == s.appends[i];
    WholeAppendCloses(s.tail, line, f);
    if fate == Evicted {
      OverflowIsWhatGoes(a.Grown(), g.nl, l);
    } else if fate == SplitByReader {
      AppendAddsPieces("", line);
      assert "" + line + "\n" == line + "\n" && [line][0] == line;
    }
  }

  lemma OverflowIsWhatGoes(grown: seq<string>, nl: nat, l: string)
    requires l in grown && l !in LongestFit(grown, nl)
    ensures !Fits(grown, nl) && l in Overflow(grown, nl)
  {
    LongestFitIsLongest(grown, nl);
    var kept := LongestFit(grown, nl);
    assert grown == grown[..|grown| - |kept|] + kept;
  }

  lemma BufferedLosesNothing(g: Config, s: Sys, line: string, f: FileFaults, sent: set<string>)
    requires NothingLost(s, sent)
    ensures NothingLost(Buffered(g, s, line, f), sent + {line})
  {
    hide LongestFit, IsBlank, HasBreak, Lines, Head;
    var s' := Buffered(g, s, line, f);
    var a := Appended(line, s.base, s.tail, f);
    WholeAppendCloses(s.tail, line, f);
    forall l | l in sent + {line} ensures l in s'.base || exists fate :: (l, fate) in s'.fates {
      if f.append.Some? {
        assert (line, AppendFailed) in s'.fates;
      } else if l in a.Grown() && l !in s'.base {
        assert (l, Evicted) in s'.fates;
      } else if l == line && l !in a.Grown() {
        assert (line, if s.tail == "" then SplitByReader else Swallowed) in s'.fates;
      }
    }
  }

  lemma SentKeepsInv(g: Config, s: Sys, env: Envelope, f: FileFaults)
    requires IsCodec(g.codec) && Inv(g, s)
    ensures Inv(g, Sent(g, s, env, f).0) && Grows(g, s, Sent(g, s, env, f).0)
  {
    hide Deliver, Flushed, Buffered, FatesOk, InOrder;
    var line := g.codec.dump(env);
    assert g.codec.load(line) == Object(env);
    FatesServer(g, s);
    var s0 := s.(sent := s.sent + {line});
    FatesStayOk(g, s, s0);
    if Utf8Length(line) > MAX_PAYLOAD_BYTES {
      FateIsOk(g, s0, line, Oversized);
      assert (line, Oversized) in WithFate(s0, line, Oversized).fates;
    } else {
      DeliverGrows(g, s0, env);
      var (s1, fate) := Deliver(g, s0, env);
      FatesStayOk(g, s0, s1);
      assert NothingLost(s1, s.sent);
      if fate.Some? {
        FateIsOk(g, s1, line, fate.value);
        var s2 := WithFate(s1, line, fate.value);
        assert (line, fate.value) in s2.fates;
        FlushLeavesSuffix(g, s2, f);
        GrowsTwice(g, s, s2, Flushed(g, s2, f).0);
      } else {
        BufferedKeepsInv(g, s1, line, f, s.sent);
        GrowsTwice(g, s, s1, Buffered(g, s1, line, f));
      }
    }
  }

  lemma StepKeepsInv(g: Config, s: Sys, a: Step)
    requires IsCodec(g.codec) && Inv(g, s)
    ensures Inv(g, Apply(g, s, a)) && Grows(g, s, Apply(g, s, a))
  {
    hide FatesOk, InOrder, Sent, Flushed, Serve;
    FatesServer(g, s);
    match a
    case Send(env, f) => SentKeepsInv(g, s, env, f);
    case Flush(f) => FlushLeavesSuffix(g, s, f);
    case AgentRestarts => FatesStayOk(g, s, s.(throttledUntil := 0.0));
  }

  lemma {:induction false} RunKeepsInv(g: Config, s: Sys, run: seq<Step>)
    requires IsCodec(g.codec) && Inv(g, s)
    ensures Inv(g, After(g, s, run)) && Grows(g, s, After(g, s, run))
    decreases |run|
  {
    hide Inv, Grows, Apply;
    if run == [] {
      GrowsOnce(g, s);
    } else {
      StepKeepsInv(g, s, run[0]);
      RunKeepsInv(g, Apply(g, s, run[0]), run[1..]);
      GrowsTwice(g, s, Apply(g, s, run[0]), After(g, s, run));
    }
  }

  lemma GrowsOnce(g: Config, s: Sys)
    requires Inv(g, s)
    ensures Grows(g, s, s)
  {}

  // ---- main results ----

  /** Over every run, with lost requests and replies, throttling, requests of other agents and server restarts
      before any POST, agent restarts and failing spool files: an envelope handed to `send` is still spooled, or
      left for a recorded reason, and every recorded reason is true. */
  lemma NothingLeavesSilently(g: Config, run: seq<Step>, line: string)
    requires IsCodec(g.codec)
    ensures var s := After(g, Initial, run);
      && (line in s.sent ==> line in s.base || exists fate :: (line, fate) in s.fates)
      && (forall fate :: (line, fate) in s.fates ==> Justified(g, s, line, fate))
  {
    RunKeepsInv(g, Initial, run);
  }

  /** End to end and without a server restart, two completed ingests of one key have a mark between
      them that found the set oversized after the TTL. Retries and replays alone never do it. */
  lemma IngestedAtMostOnce(g: Config, run: seq<Step>, i: nat, j: nat)
    requires IsCodec(g.codec) && NeverRestarts(g)
    requires var done := After(g, Initial, run).server.completed;
      i < j < |done| && done[i].env.key == done[j].env.key != ""
    ensures var done := After(g, Initial, run).server.completed;
      var marks := done[j].marksSeen;
      exists p, q :: 0 <= p < q < |marks| && marks[p].key == done[i].env.key
        && marks[q].size > TRIM_THRESHOLD && marks[p].time < marks[q].time - DEDUP_TTL_SEC
  {
    RunKeepsInv(g, Initial, run);
    OnceUnlessForgotten(After(g, Initial, run).server, i, j);
  }

  /** The spool is a queue: each step leaves a suffix of what was there, or of that with the step's own envelope
      appended. So the backlog keeps its order, and a line that left it never comes back by itself. */
  lemma SpoolOnlyLosesItsHead(g: Config, s: Sys, a: Step) returns (k: nat)
    ensures var s' := Apply(g, s, a);
      || (k <= |s.spool| && s'.spool == s.spool[k..])
      || (a.Send? && var grown := Appended(g.codec.dump(a.env), s.base, s.tail, a.faults).Grown();
                     k <= |grown| && s'.spool == grown[k..])
  {
    hide Deliver, Flushed, Drained, LongestFit;
    k := 0;
    match a
    case Send(env, f) =>
      var line := g.codec.dump(env);
      var s0 := s.(sent := s.sent + {line});
      if Utf8Length(line) <= MAX_PAYLOAD_BYTES {
        DeliverKeepsSpool(g, s0, env);
        var (s1, fate) := Deliver(g, s0, env);
        if fate.Some? {
          k := FlushLosesHead(g, WithFate(s1, line, fate.value), f);
        } else {
          k := AppendLosesHead(g, s1, line, f);
        }
      }
    case Flush(f) => k := FlushLosesHead(g, s, f);
    case _ =>
  }

  lemma AppendLosesHead(g: Config, s: Sys, line: string, f: FileFaults) returns (k: nat)
    ensures var grown := Appended(line, s.base, s.tail, f).Grown();
      k <= |grown| && Buffered(g, s, line, f).spool == grown[k..]
  {
    hide LongestFit, Lines, Head, Tail;
    var a, s' := Appended(line, s.base, s.tail, f), Buffered(g, s, line, f);
    var more := s.tail + Written(line, f.append);
    WholeAppendCloses(s.tail, line, f);
    LinesOfParts(more);
    PlusIsAssociative(s.base, Lines(Head(more)), Lines(Tail(more)));
    LongestFitIsLongest(a.Grown(), g.nl);
    if f.append.None? {
      ClosedSpool(s');
    }
    k := if f.append.Some? || f.trimRead || f.trimWrite then 0 else |a.Grown()| - |LongestFit(a.Grown(), g.nl)|;
  }

  lemma FlushLosesHead(g: Config, s: Sys, f: FileFaults) returns (k: nat)
    ensures k <= |s.spool| && Flushed(g, s, f).0.spool == s.spool[k..]
  {
    hide Drained;
    DrainedIsPrefix(g, s, s.spool);
    k := if f.flushRead || f.flushWrite || Flushed(g, s, f).1 then 0 else Drained(g, s, s.spool).1;
    ClosedSpool(Flushed(g, s, f).0.(base := s.spool[k..], tail := ""));
  }

  /** An append that breaks off inside its line swallows the next one whole: what is read is the torn line with the next
      one behind it, and the next one's fate says so. */
  lemma TornAppendLosesNext(g: Config, s: Sys, first: string, k: nat, second: string, torn: FileFaults, f: FileFaults)
    requires s.tail == "" && 0 < k <= |first| && Storable(first) && Storable(second)
    requires torn.append == Some(k) && f.append.None? && Fits(s.base + [first[..k] + second], g.nl)
    ensures var s1 := Buffered(g, s, first, torn);
      var s2 := Buffered(g, s1, second, f);
      && (first, AppendFailed) in s1.fates && s1.base == s.base && s1.tail == first[..k]
      && (second, Swallowed) in s2.fates && s2.spool == s.base + [first[..k] + second]
  {
    hide Lines, Head, Tail, LongestFit, Fits, HasBreak, IsBlank;
    TornTail(first, k);
    PlusEmpty(s.base);
    assert "" + first[..k] == first[..k];
    var s1 := Buffered(g, s, first, torn);
    MergedLine(first[..k], second);
    WholeAppendCloses(first[..k], second, f);
    var a := Appended(second, s1.base, s1.tail, f);
    assert a.Grown() == s.base + [first[..k] + second];
    FitsWhole(a.Grown(), g.nl);
    ClosedSpool(Buffered(g, s1, second, f));
  }

  lemma FitsWhole(lines: seq<string>, nl: nat)
    requires Fits(lines, nl)
    ensures LongestFit(lines, nl) == lines
  {}

  lemma TornTail(line: string, k: nat)
    requires Storable(line) && 0 < k <= |line|
    ensures Written(line, Some(k)) == line[..k] && Head(line[..k]) == "" && Tail(line[..k]) == line[..k]
    ensures Lines("") == [] && !HasBreak(line[..k])
  {
    assert (line + "\n")[..k] == line[..k];
    Slices(line, k);
    NoLineEnds(line[..k]);
  }

  lemma {:induction false} NoLineEnds(t: string)
    requires !HasBreak(t)
    ensures LastEnd(t) == 0
  {
    if t == "" {
    } else {
      assert t[|t| - 1] in t;
      Slices(t, |t| - 1);
      NoLineEnds(t[..|t| - 1]);
    }
  }

  lemma MergedLine(torn: string, next: string)
    requires torn != "" && !HasBreak(torn) && Storable(next)
    ensures Lines(torn + next + "\n") == [torn + next] && next !in [torn + next]
  {
    TornAppendSwallowsNext("", torn, next);
    assert "" + torn + next + "\n" == torn + next + "\n";
    assert Lines("") == [] && [] + [torn + next] == [torn + next];
  }

  // ---- a line that is JSON but no object ----

  lemma {:induction false} DrainStopsBeforeValue(g: Config, s: Sys, lines: seq<string>, i: nat)
    requires i < |lines| && g.codec.load(lines[i]).Value?
    ensures Drained(g, s, lines).1 <= i
    decreases i
  {
    hide Deliver, DeliverValue;
    if i > 0 {
      DrainStopsBeforeValue(g, Replayed(g, s, lines[0]).0, lines[1..], i - 1);
    }
  }

  /** No flush takes off such a line, nor anything behind it. */
  lemma FlushKeepsValue(g: Config, s: Sys, f: FileFaults, i: nat) returns (k: nat)
    requires i < |s.spool| && g.codec.load(s.spool[i]).Value?
    ensures k <= i && Flushed(g, s, f).0.spool == s.spool[k..]
  {
    hide Drained;
    DrainedIsPrefix(g, s, s.spool);
    DrainStopsBeforeValue(g, s, s.spool, i);
    k := FlushLosesHead(g, s, f);
    k := if f.flushRead || f.flushWrite || Flushed(g, s, f).1 then 0 else Drained(g, s, s.spool).1;
  }

  lemma StepKeepsValue(g: Config, s: Sys, a: Step, line: string)
    requires g.codec.load(line).Value? && line in s.base
    ensures line in Apply(g, s, a).base || (line, Evicted) in Apply(g, s, a).fates
  {
    hide Deliver, Flushed, LongestFit, Lines, Head;
    match a
    case Send(env, f) =>
      var dumped := g.codec.dump(env);
      var s0 := s.(sent := s.sent + {dumped});
      DeliverKeepsSpool(g, s0, env);
      WholeAppendCloses(s.tail, dumped, f);
      var (s1, fate) := Deliver(g, s0, env);
      if Utf8Length(dumped) <= MAX_PAYLOAD_BYTES && fate.Some? {
        FlushKeepsLine(g, WithFate(s1, dumped, fate.value), f, line);
      }
    case Flush(f) => FlushKeepsLine(g, s, f, line);
    case AgentRestarts =>
  }

  lemma FlushKeepsLine(g: Config, s: Sys, f: FileFaults, line: string)
    requires g.codec.load(line).Value? && line in s.base
    ensures line in Flushed(g, s, f).0.base
  {
    hide Drained, Lines;
    var i :| 0 <= i < |s.base| && s.base[i] == line;
    assert s.spool[i] == line;
    DrainedIsPrefix(g, s, s.spool);
    DrainStopsBeforeValue(g, s, s.spool, i);
    var n := Drained(g, s, s.spool).1;
    assert s.spool[n..][i - n] == line;
  }

  lemma StepKeepsFates(g: Config, s: Sys, a: Step)
    requires IsCodec(g.codec) && Inv(g, s)
    ensures s.fates <= Apply(g, s, a).fates
  {
    hide Deliver, Flushed, FatesOk, InOrder, NothingLost;
    match a
    case Send(env, f) =>
      var line := g.codec.dump(env);
      var s0 := s.(sent := s.sent + {line});
      FatesServer(g, s);
      DeliverGrows(g, s0, env);
      SentKeepsFates(g, s, env);
      var (s1, fate) := Deliver(g, s0, env);
      if fate.Some? {
        FlushKeepsFates(g, WithFate(s1, line, fate.value), f);
      }
    case Flush(f) => FlushKeepsFates(g, s, f);
    case AgentRestarts =>
  }

  lemma FlushKeepsFates(g: Config, s: Sys, f: FileFaults)
    requires FatesOk(g, s)
    ensures s.fates <= Flushed(g, s, f).0.fates
  {
    hide Drained, FatesOk, InOrder;
    DrainedKeepsFates(g, s, s.spool);
  }

  /** Over every run such a line, once it is terminated, leaves the spool by an eviction only. */
  lemma {:induction false} ValueLeavesByEviction(g: Config, s: Sys, run: seq<Step>, line: string)
    requires IsCodec(g.codec) && Inv(g, s)
    requires g.codec.load(line).Value? && (line in s.base || (line, Evicted) in s.fates)
    ensures line in After(g, s, run).base || (line, Evicted) in After(g, s, run).fates
    decreases |run|
  {
    hide Inv, Grows, Apply;
    if run == [] {
    } else {
      if line in s.base {
        StepKeepsValue(g, s, run[0], line);
      }
      StepKeepsFates(g, s, run[0]);
      StepKeepsInv(g, s, run[0]);
      ValueLeavesByEviction(g, Apply(g, s, run[0]), run[1..], line);
    }
  }

  /** An envelope whose text `splitlines` takes apart around such a line is spooled as three lines. */
  lemma SplitAroundValue(g: Config, s: Sys, env: Envelope, f: FileFaults, before: string, value: string, after: string)
    requires Storable(before) && Storable(value) && Storable(after)
    requires g.codec.dump(env) == before + "\U{2028}" + value + "\U{2028}" + after
    requires Utf8Length(g.codec.dump(env)) <= MAX_PAYLOAD_BYTES && f.append.None? && s.tail == ""
    requires Fits(s.base + [before, value, after], g.nl)
    ensures var (s1, answer) := Sent(g, s, env, f);
      answer == Left ==> s1.spool == s1.base == s.base + [before, value, after]
  {
    hide Deliver, Flushed, Lines, Head, Tail, Storable;
    var line := g.codec.dump(env);
    TwoSeparators(before, value, after);
    WholeAppendCloses("", line, f);
    assert "" + line + "\n" == line + "\n";
    DeliverKeepsSpool(g, s.(sent := s.sent + {line}), env);
    var (s1, answer) := Sent(g, s, env, f);
    if answer == Left {
      ClosedSpool(s1);
    }
  }

  /** A flush of those lines raises if the network is open, and the torn head comes back too. Otherwise the head is
      dropped as corrupt, and the value stays first. */
  lemma WedgedSpool(g: Config, s: Sys, f: FileFaults, before: string, value: string, rest: seq<string>)
    requires s.spool == [before, value] + rest
    requires g.codec.load(before).NotJson? && g.codec.load(value).Value?
    ensures Flushed(g, s, f).1 <==> !f.flushRead && NetOpen(g, s)
    ensures Flushed(g, s, f).0.spool ==
              if f.flushRead || f.flushWrite || NetOpen(g, s) then s.spool else [value] + rest
  {
    hide Attempted;
    DrainedIsPrefix(g, s, s.spool);
    assert s.spool[1..][0] == value && s.spool[1..] == [value] + rest;
    assert Drained(g, WithFate(s, before, Corrupt), s.spool[1..]).1 == 0;
  }

  /** And once it is first, no flush of any run changes the spool. */
  lemma WedgedForGood(g: Config, s: Sys, f: FileFaults)
    requires s.spool != [] && g.codec.load(s.spool[0]).Value?
    ensures Flushed(g, s, f).0.spool == s.spool
    ensures Flushed(g, s, f).1 <==> !f.flushRead && NetOpen(g, s)
  {
    hide Attempted;
    var _ := FlushKeepsValue(g, s, f, 0);
  }

  function Ones(n: nat): string {
    if n == 0 then "0" else "1" + Ones(n - 1)
  }

  /** A text form with the lengths in front. */
  function LengthsFirst(e: Envelope): string {
    Ones(|e.device|) + Ones(|e.key|) + Ones(|e.body|) + e.device + e.key + e.body
  }

  lemma {:induction false} OnesInjective(m: nat, n: nat, t: string, u: string)
    requires Ones(m) + t == Ones(n) + u
    ensures m == n && t == u
  {
    var v, w := Ones(m) + t, Ones(n) + u;
    assert v[0] == Ones(m)[0] && w[0] == Ones(n)[0];
    if m == 0 || n == 0 {
      assert v[1..] == t && w[1..] == u;
    } else {
      assert v[1..] == Ones(m - 1) + t && w[1..] == Ones(n - 1) + u;
      OnesInjective(m - 1, n - 1, t, u);
    }
  }

  lemma PartsAreRead(a: string, b: string, c: string, a': string, b': string, c': string)
    requires |a| == |a'| && |b| == |b'| && a + b + c == a' + b' + c'
    ensures a == a' && b == b' && c == c'
  {
    var t, u := a + b + c, a' + b' + c';
    assert t[..|a|] == a && u[..|a|] == a';
    assert t[|a|..|a| + |b|] == b && u[|a|..|a| + |b|] == b';
    assert t[|a| + |b|..] == c && u[|a| + |b|..] == c';
  }

  lemma LengthsAreRead(d: Envelope, e: Envelope)
    requires LengthsFirst(d) == LengthsFirst(e)
    ensures d == e
  {
    hide Ones;
    var (t2, u2) := (Ones(|d.body|) + (d.device + d.key + d.body), Ones(|e.body|) + (e.device + e.key + e.body));
    var (t1, u1) := (Ones(|d.key|) + t2, Ones(|e.key|) + u2);
    LengthsApart(d);
    LengthsApart(e);
    OnesInjective(|d.device|, |e.device|, t1, u1);
    OnesInjective(|d.key|, |e.key|, t2, u2);
    OnesInjective(|d.body|, |e.body|, d.device + d.key + d.body, e.device + e.key + e.body);
    PartsAreRead(d.device, d.key, d.body, e.device, e.key, e.body);
  }

  lemma LengthsApart(e: Envelope)
    ensures LengthsFirst(e) == Ones(|e.device|) + (Ones(|e.key|) + (Ones(|e.body|) + (e.device + e.key + e.body)))
  {
    hide Ones;
    var (a, b, c, t) := (Ones(|e.device|), Ones(|e.key|), Ones(|e.body|), e.device + e.key + e.body);
    PlusIsAssociative(a + b + c, e.device, e.key);
    PlusIsAssociative(a + b + c, e.device + e.key, e.body);
    PlusIsAssociative(a + b, c, t);
    PlusIsAssociative(a, b, c + t);
  }

  const TORN_HEAD := "0011111110a"

  lemma TornHeadIsNoEnvelope(e: Envelope)
    ensures LengthsFirst(e) != TORN_HEAD
  {
    if LengthsFirst(e) == TORN_HEAD {
      LengthsApart(e);
      var t2 := Ones(|e.body|) + (e.device + e.key + e.body);
      assert Ones(0) == "0" && Ones(0) + "011111110a" == TORN_HEAD;
      OnesInjective(0, |e.device|, "011111110a", Ones(|e.key|) + t2);
      assert Ones(0) + "11111110a" == "011111110a";
      OnesInjective(0, |e.key|, "11111110a", t2);
      SevenOnes();
      OnesInjective(7, |e.body|, "a", e.device + e.key + e.body);
    }
  }

  lemma SevenOnes()
    ensures Ones(7) == "11111110" && Ones(7) + "a" == "11111110a"
  {
    assert Ones(2) == "110" && Ones(4) == "11110" && Ones(6) == "1111110";
  }

  lemma NumberIsNoEnvelope(e: Envelope)
    ensures LengthsFirst(e) != "123"
  {
    LengthsApart(e);
    assert |e.device| > 0 ==> Ones(|e.device|)[1] == Ones(|e.device| - 1)[0];
    assert LengthsFirst(e)[0] == '0' || LengthsFirst(e)[1] in {'0', '1'};
  }

  /** One such envelope, and a server that does not answer: it is spooled as three lines, and every flush of it raises
      and leaves all three. */
  lemma WedgeIsReached() returns (g: Config, env: Envelope, f: FileFaults)
    ensures IsCodec(g.codec) && env == Envelope("", "", "a\U{2028}123\U{2028}b")
    ensures var s := After(g, Initial, [Step.Send(env, f)]);
      s.spool == [TORN_HEAD, "123", "b"] && Flushed(g, s, f).1 && Flushed(g, s, f).0.spool == s.spool
  {
    hide LengthsFirst, NetOpen, Lines, Storable;
    var load := t => if exists e :: LengthsFirst(e) == t then Object(var e :| LengthsFirst(e) == t; e)
                     else if t == "123" then Value else NotJson;
    g := Config(Codec(LengthsFirst, load), World(_ => 0.0, _ => Unreachable, _ => []), false, 1);
    f := NoFaults;
    env := Envelope("", "", "a\U{2028}123\U{2028}b");
    forall e ensures g.codec.load(g.codec.dump(e)) == Object(e) {
      forall d | LengthsFirst(d) == LengthsFirst(e) ensures d == e {
        LengthsAreRead(d, e);
      }
    }
    forall e ensures LengthsFirst(e) != TORN_HEAD && LengthsFirst(e) != "123" {
      TornHeadIsNoEnvelope(e);
      NumberIsNoEnvelope(e);
    }
    WedgeInput(g, env, f);
  }

  /** Nothing answers, and the clock stands still. */
  ghost predicate Dead(w: World) {
    forall p: nat :: w.net(p).Unreachable? && w.clock(p) == 0.0
  }

  lemma {:induction false} DeadTries(g: Config, s: Sys, env: Envelope, attempts: nat)
    requires Dead(g.world)
    ensures var (s', fate) := Tried(g, s, env, attempts); fate == None && s'.throttledUntil == s.throttledUntil
    decreases attempts
  {
    hide ServerAfter;
    if attempts > 0 {
      DeadTries(g, Attempted(g, s, Some(env)).0, env, attempts - 1);
    }
  }

  lemma {:induction false} Utf8IsAtMostFour(t: string)
    ensures Utf8Length(t) <= 4 * |t|
  {
    if t != "" {
      Utf8IsAtMostFour(t[1..]);
    }
  }

  lemma WedgeText()
    ensures LengthsFirst(Envelope("", "", "a\U{2028}123\U{2028}b")) == TORN_HEAD + "\U{2028}" + "123" + "\U{2028}" + "b"
  {
    SevenOnes();
    var body := "a\U{2028}123\U{2028}b";
    assert |body| == 7 && Ones(0) + Ones(0) + Ones(7) == "0011111110";
    assert body == "a" + "\U{2028}" + "123" + "\U{2028}" + "b";
  }

  lemma WedgePieces()
    ensures Storable(TORN_HEAD) && Storable("123") && Storable("b")
  {
    assert TORN_HEAD[0] in TORN_HEAD && "123"[0] in "123" && "b"[0] in "b";
  }

  lemma WedgeFits(a: string, b: string, c: string)
    requires |a| + |b| + |c| <= 100
    ensures Fits([a, b, c], 1)
  {
    hide Utf8Length;
    Utf8IsAtMostFour(a);
    Utf8IsAtMostFour(b);
    Utf8IsAtMostFour(c);
    assert [c][1..] == [] && Bytes([c], 1) == Utf8Length(c) + 1;
    assert [b, c][1..] == [c] && Bytes([b, c], 1) == Utf8Length(b) + 1 + Bytes([c], 1);
    assert [a, b, c][1..] == [b, c] && Bytes([a, b, c], 1) == Utf8Length(a) + 1 + Bytes([b, c], 1);
  }

  lemma WedgeInput(g: Config, env: Envelope, f: FileFaults)
    requires g.codec.dump(env) == LengthsFirst(env) && g.codec.load(TORN_HEAD).NotJson? && g.codec.load("123").Value?
    requires !g.offline && g.nl == 1 && Dead(g.world)
    requires f == NoFaults && env == Envelope("", "", "a\U{2028}123\U{2028}b")
    ensures var s := After(g, Initial, [Step.Send(env, f)]);
      s.spool == [TORN_HEAD, "123", "b"] && Flushed(g, s, f).1 && Flushed(g, s, f).0.spool == s.spool
  {
    hide LengthsFirst, Lines, Storable, Tried, Flushed, Drained, Fits;
    WedgeText();
    WedgePieces();
    WedgeFits(TORN_HEAD, "123", "b");
    var line := g.codec.dump(env);
    Utf8IsAtMostFour(line);
    var s0 := Initial.(sent := {line});
    assert Initial.sent + {line} == {line};
    DeadTries(g, Clocked(g, s0), env, SEND_ATTEMPTS);
    PlusEmpty([TORN_HEAD, "123", "b"]);
    assert [TORN_HEAD, "123", "b"] == [TORN_HEAD, "123"] + ["b"];
    SplitAroundValue(g, Initial, env, f, TORN_HEAD, "123", "b");
    var s := Sent(g, Initial, env, f).0;
    WedgedSpool(g, s, f, TORN_HEAD, "123", ["b"]);
  }

  /** Inside the throttle window nothing is posted, and the window is at most five minutes long. */
  lemma ThrottleIsRespected(g: Config, s: Sys, env: Envelope)
    ensures g.world.clock(s.readings) < s.throttledUntil ==>
              Deliver(g, s, env).1.None? && Deliver(g, s, env).0.server == s.server && Deliver(g, s, env).0.log == s.log
    ensures |Deliver(g, s, env).0.log| <= |s.log| + SEND_ATTEMPTS
    ensures var (s', outcome) := Attempted(g, s, Some(env));
      outcome.Throttled? ==>
        g.world.clock(s.readings) < s'.throttledUntil <= g.world.clock(s.readings) + MAX_THROTTLE_SEC
  {
    TriedPosts(g, Clocked(g, s), env, SEND_ATTEMPTS);
  }

  lemma {:induction false} TriedPosts(g: Config, s: Sys, env: Envelope, attempts: nat)
    ensures |s.log| <= |Tried(g, s, env, attempts).0.log| <= |s.log| + attempts
    decreases attempts
  {
    if attempts > 0 {
      var (s', outcome) := Attempted(g, s, Some(env));
      if outcome.Retry? {
        TriedPosts(g, s', env, attempts - 1);
      }
    }
  }

  /** Order holds for the backlog only: a fresh envelope is the next one stored after whatever else reached the server
      before its POST, ahead of everything in the spool. */
  lemma FreshEnvelopeOvertakesBacklog(g: Config, s: Sys, env: Envelope, f: FileFaults)
    requires IsCodec(g.codec) && Inv(g, s) && Utf8Length(g.codec.dump(env)) <= MAX_PAYLOAD_BYTES
    requires !g.offline && g.world.clock(s.readings) >= s.throttledUntil
    requires StoredAtOnce(g, s, env)
    ensures var server := ServerAfter(s.server, g.world.before(|s.log|));
      var done := Sent(g, s, env, f).0.server.completed;
      |server.completed| < |done| && done[|server.completed|].env == env
  {
    hide Inv, FatesOk, Serve, ServerAfter, Flushed, InOrder;
    var line := g.codec.dump(env);
    var s0 := s.(sent := s.sent + {line}, readings := s.readings + 1);
    var server := ServerAfter(s.server, g.world.before(|s.log|));
    InvServer(g, s);
    FirstPostStores(g, s0, env);
    var s1 := Attempted(g, s0, Some(env)).0;
    assert Deliver(g, s.(sent := s.sent + {line}), env) == (s1, Some(Delivered));
    SentKeepsFates(g, s, env);
    DrainedKeepsFates(g, WithFate(s1, line, Delivered), s1.spool);
    FlushedServer(g, WithFate(s1, line, Delivered), f);
    assert s1.server.completed == server.completed + [Done(env, server.marks)];
  }

  ghost predicate StoredAtOnce(g: Config, s: Sys, env: Envelope) {
    var n := g.world.net(|s.log|);
    && n.Reached? && !n.replyLost
    && Serve(ServerAfter(s.server, g.world.before(|s.log|)), env, n.set_, n.now, n.v, n.markNow).1 == Stored
  }

  lemma InvServer(g: Config, s: Sys)
    requires Inv(g, s)
    ensures IngestApi.Inv(s.server) && FatesOk(g, s)
  {}

  lemma FirstPostStores(g: Config, s: Sys, env: Envelope)
    requires IngestApi.Inv(s.server) && StoredAtOnce(g, s, env)
    ensures var server := ServerAfter(s.server, g.world.before(|s.log|));
      var (s', outcome) := Attempted(g, s, Some(env));
      outcome == Ok && s'.server.completed == server.completed + [Done(env, server.marks)]
  {
    hide Serve, ServerAfter, InOrder;
    var n := g.world.net(|s.log|);
    ServerAfterGrows(g, s.server, |s.log|, g.world.before(|s.log|));
    OnlyStoredMarks(ServerAfter(s.server, g.world.before(|s.log|)), Call(env, n.set_, n.now, n.v, n.markNow), n.set_,
                    n.now);
  }

  lemma SentKeepsFates(g: Config, s: Sys, env: Envelope)
    requires IsCodec(g.codec) && FatesOk(g, s)
    ensures var line := g.codec.dump(env);
      var (s1, fate) := Deliver(g, s.(sent := s.sent + {line}), env);
      fate.Some? ==> FatesOk(g, WithFate(s1, line, fate.value))
  {
    hide Deliver, FatesOk, InOrder;
    var line := g.codec.dump(env);
    assert g.codec.load(line) == Object(env);
    FatesServer(g, s);
    var s0 := s.(sent := s.sent + {line});
    FatesStayOk(g, s, s0);
    DeliverGrows(g, s0, env);
    var (s1, fate) := Deliver(g, s0, env);
    FatesStayOk(g, s0, s1);
    if fate.Some? {
      FateIsOk(g, s1, line, fate.value);
    }
  }

  lemma FlushedServer(g: Config, s: Sys, f: FileFaults)
    requires s.server.completed <= Drained(g, s, s.spool).0.server.completed
    ensures s.server.completed <= Flushed(g, s, f).0.server.completed
  {
    hide Drained;
  }
}
