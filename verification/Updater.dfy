/** client/updater.py: offered versions are checked, counted, downloaded and handed to the update task, and the
    outcome is settled after the restart. */
module Updater {
  import opened Wrappers
  import opened Sequences

  const MAX_ATTEMPTS := 3
  const STALE_STAGE_SEC := 900
  const MAX_PACKAGE_SIZE := 200 * 1024 * 1024

  datatype Version = Version(major: int, minor: int, patch: int) {
    predicate Below(v: Version) {
      major < v.major || (major == v.major && (minor < v.minor || (minor == v.minor && patch < v.patch)))
    }
  }

  /** `_parse_version` */
  type Parse = string -> Option<Version>

  /** `shaOk`: 64 lower-case hex digits. `hmac` is missing or empty, wrong, or the one our secret gives. */
  datatype Manifest = Manifest(version: Option<string>, shaOk: bool, size: Option<int>, hmac: Hmac)

  datatype Hmac = Missing | Wrong | Right

  datatype Config = Config(silent: bool, frozen: bool, hasSecret: bool)

  /** `state.json` */
  datatype Stage = Stage(target: string, attempts: nat, stagedAt: int)

  datatype Kind = Ok | Updating | Failed

  datatype Report = Report(kind: Kind, available: Option<string>)

  datatype Fetch = Unreachable | NotFound | Got(manifest: Option<Manifest>)

  /** How far one attempt gets after its state is written. */
  datatype Progress = DownloadFails | ExtractFails | CreateFails | RunFails | Handed

  predicate Newer(parse: Parse, a: string, b: string) {
    parse(a).Some? && parse(b).Some? && parse(b).value.Below(parse(a).value)
  }

  function SelectUpdate(parse: Parse, m: Option<Manifest>, current: string, hasToken: bool): (r: Option<string>)
    ensures r.Some? <==> (&& m.Some? && m.value.version.Some? && Newer(parse, m.value.version.value, current)
                          && m.value.shaOk && m.value.size.Some? && 0 < m.value.size.value <= MAX_PACKAGE_SIZE
                          && (hasToken ==> m.value.hmac != Missing))
    ensures r.Some? ==> r == m.value.version
  {
    if m == None || m.value.version == None then None
    else
      var remote := parse(m.value.version.value);
      var running := parse(current);
      if remote == None || running == None then None
      else if !m.value.shaOk then None
      else if m.value.size == None || !(0 < m.value.size.value <= MAX_PACKAGE_SIZE) then None
      else if hasToken && m.value.hmac == Missing then None
      else if !running.value.Below(remote.value) then None
      else m.value.version
  }

  lemma BelowIsStrictOrder(a: Version, b: Version, c: Version)
    ensures !a.Below(a)
    ensures a.Below(b) && b.Below(c) ==> a.Below(c)
    ensures a.Below(b) || b.Below(a) || a == b
  {}

  function AttemptsFor(state: Option<Stage>, target: string): nat {
    if state.Some? && state.value.target == target then state.value.attempts else 0
  }

  // ---- specification of one check ----

  /** The version of an attempt that this check starts: everything in front of the state write is passed. */
  function Attempt(c: Config, parse: Parse, state: Option<Stage>, current: string, f: Fetch): Option<string> {
    if c.silent || !f.Got? then None
    else
      match SelectUpdate(parse, f.manifest, current, c.hasSecret)
      case None => None
      case Some(remote) =>
        if c.frozen && c.hasSecret && AttemptsFor(state, remote) < MAX_ATTEMPTS
            && f.manifest.value.hmac == Right then Some(remote)
        else None
  }

  /** What became of a write of the state file: done, not begun, or broken off after the file was emptied. */
  datatype Write = Written | Kept | Torn

  /** The state as a check reads it. */
  function Seen(state: Option<Stage>, readable: bool): Option<Stage> {
    if readable then state else None
  }

  function NextState(c: Config, parse: Parse, state: Option<Stage>, readable: bool, current: string, f: Fetch,
                     now: int, write: Write): Option<Stage> {
    var seen := Seen(state, readable);
    match Attempt(c, parse, seen, current, f)
    case None => state
    case Some(remote) =>
      match write
      case Written => Some(Stage(remote, AttemptsFor(seen, remote) + 1, now))
      case Kept => state
      case Torn => None
  }

  /** What there is to say before repeated good news is dropped. */
  function News(c: Config, parse: Parse, state: Option<Stage>, current: string, f: Fetch, p: Progress): Option<Report> {
    if c.silent || f.Unreachable? then None
    else if f.NotFound? then Some(Report(Ok, None))
    else
      match SelectUpdate(parse, f.manifest, current, c.hasSecret)
      case None => Some(Report(Ok, None))
      case Some(remote) =>
        if !c.frozen || !c.hasSecret then Some(Report(Ok, Some(remote)))
        else if Attempt(c, parse, state, current, f).Some? && p == Handed then Some(Report(Updating, Some(remote)))
        else Some(Report(Failed, Some(remote)))
  }

  class Agent {
    const c: Config
    const parse: Parse
    var state: Option<Stage>
    var lastStatus: Option<Report>

    constructor (c: Config, parse: Parse, state: Option<Stage>)
      ensures this.c == c && this.parse == parse && this.state == state && lastStatus == None
    {
      this.c, this.parse := c, parse;
      this.state, lastStatus := state, None;
    }

    /** Good news is sent once until something else was; a failure always. */
    method Gate(r: Report) returns (out: Option<Report>)
      modifies this`lastStatus
      ensures out == if r.kind != Failed && old(lastStatus) == Some(r) then None else Some(r)
      ensures lastStatus == Some(r)
      ensures [out] == Passed(old(lastStatus), [r])
    {
      if r.kind != Failed && lastStatus == Some(r) {
        return None;
      }
      lastStatus := Some(r);
      out := Some(r);
    }

    /** `downloaded` is the version whose package was asked for, if any; `readable` and `write` are the fortunes of
        the state file. */
    method Check(current: string, f: Fetch, p: Progress, now: int, readable: bool, write: Write)
      returns (out: Option<Report>, restart: bool, downloaded: Option<string>)
      modifies this
      ensures downloaded == Attempt(c, parse, Seen(old(state), readable), current, f)
      ensures state == NextState(c, parse, old(state), readable, current, f, now, write)
      ensures restart <==> downloaded.Some? && p == Handed
      ensures var news := News(c, parse, Seen(old(state), readable), current, f, p);
        && out == (if news.Some? && news.value.kind != Failed && old(lastStatus) == news then None else news)
        && lastStatus == (if news.Some? then news else old(lastStatus))
    {
      out, restart, downloaded := None, false, None;
      if c.silent {
        return;
      }
      if f.Unreachable? {
        return;
      }
      if f.NotFound? {
        out := Gate(Report(Ok, None));
        return;
      }
      var update := SelectUpdate(parse, f.manifest, current, c.hasSecret);
      if update == None {
        out := Gate(Report(Ok, None));
        return;
      }
      var remote := update.value;
      if !c.frozen || !c.hasSecret {
        out := Gate(Report(Ok, Some(remote)));
        return;
      }
      var attempts := AttemptsFor(Seen(state, readable), remote);
      if attempts >= MAX_ATTEMPTS {
        out := Gate(Report(Failed, Some(remote)));
        return;
      }
      out, restart, downloaded := Apply(f.manifest.value, remote, attempts, p, now, write);
    }

    method Apply(m: Manifest, remote: string, attempts: nat, p: Progress, now: int, write: Write)
      returns (out: Option<Report>, restart: bool, downloaded: Option<string>)
      modifies this
      ensures m.hmac != Right ==>
        downloaded == None && !restart && state == old(state) && out == Some(Report(Failed, Some(remote)))
      ensures m.hmac == Right ==>
        && downloaded == Some(remote) && (restart <==> p == Handed)
        && state == match write
                    case Written => Some(Stage(remote, attempts + 1, now))
                    case Kept => old(state)
                    case Torn => None
      ensures m.hmac == Right ==>
        var r := Report(if p == Handed then Updating else Failed, Some(remote));
        out == if p == Handed && old(lastStatus) == Some(r) then None else Some(r)
      ensures lastStatus == Some(Report(if m.hmac == Right && p == Handed then Updating else Failed, Some(remote)))
    {
      downloaded, restart := None, false;
      if m.hmac != Right {
        out := Gate(Report(Failed, Some(remote)));
        return;
      }
      match write {
        case Written => state := Some(Stage(remote, attempts + 1, now));
        case Kept =>
        case Torn => state := None;
      }
      downloaded := Some(remote);
      if p == DownloadFails || p == ExtractFails || p == CreateFails || p == RunFails {
        out := Gate(Report(Failed, Some(remote)));
        return;
      }
      out := Gate(Report(Updating, Some(remote)));
      restart := true;
    }

    /** `cleared` is whether the state file could be removed. */
    method ReconcileAfterRestart(current: string, now: int, readable: bool, cleared: bool) returns (out: Option<Report>)
      modifies this`state
      ensures state == Reconciled(old(state), current, readable && cleared)
      ensures var seen := Seen(old(state), readable);
        out == if seen == None then None
               else if seen.value.target == current then Some(Report(Ok, None))
               else if now - seen.value.stagedAt <= STALE_STAGE_SEC then None
               else Some(Report(Failed, Some(seen.value.target)))
    {
      if state == None || !readable {
        return None;
      }
      if state.value.target == current {
        if cleared {
          state := None;
        }
        return Some(Report(Ok, None));
      }
      if now - state.value.stagedAt <= STALE_STAGE_SEC {
        return None;
      }
      out := Some(Report(Failed, Some(state.value.target)));
    }
  }

  /** What `_gate` lets through of a run of reports. */
  function Passed(last: Option<Report>, rs: seq<Report>): seq<Option<Report>>
    decreases |rs|
  {
    if rs == [] then []
    else
      [if rs[0].kind != Failed && last == Some(rs[0]) then None else Some(rs[0])] + Passed(Some(rs[0]), rs[1..])
  }

  /** A report is held back exactly when it is good news and equal to the report before it; so a failure always gets
      through, and so does the first good news after one. */
  lemma {:induction false} RepeatsAreHeldBack(last: Option<Report>, rs: seq<Report>, i: nat)
    requires i < |rs|
    ensures |Passed(last, rs)| == |rs|
    ensures Passed(last, rs)[i] == None <==>
              rs[i].kind != Failed && (if i == 0 then last == Some(rs[0]) else rs[i - 1] == rs[i])
    ensures Passed(last, rs)[i].Some? ==> Passed(last, rs)[i] == Some(rs[i])
    decreases |rs|
  {
    if |rs| > 1 {
      RepeatsAreHeldBack(Some(rs[0]), rs[1..], if i == 0 then 0 else i - 1);
    }
  }

  /** State is cleared only when its target is the running version. */
  function Reconciled(state: Option<Stage>, current: string, cleared: bool): Option<Stage> {
    if cleared && state.Some? && state.value.target == current then None else state
  }

  // ---- single checks ----

  /** A download is only ever asked for a strictly newer, properly signed version with an attempt left, by an
      agent that can apply it. */
  lemma DownloadsAreNewer(c: Config, parse: Parse, state: Option<Stage>, current: string, f: Fetch)
    requires Attempt(c, parse, state, current, f).Some?
    ensures var v := Attempt(c, parse, state, current, f).value;
      && Newer(parse, v, current) && AttemptsFor(state, v) < MAX_ATTEMPTS
      && c.frozen && c.hasSecret && f.Got? && f.manifest.Some? && f.manifest.value.hmac == Right
  {}

  /** What a version with its three attempts used up says: a failure at every check, which is never held back as a
      repetition, and no attempt; only a handed-over package is reported as updating. */
  lemma ExhaustedIsReported(c: Config, parse: Parse, state: Option<Stage>, current: string, f: Fetch, p: Progress,
                            v: string)
    requires !c.silent && c.frozen && c.hasSecret && f.Got? && SelectUpdate(parse, f.manifest, current, true) == Some(v)
    ensures AttemptsFor(state, v) >= MAX_ATTEMPTS ==>
      News(c, parse, state, current, f, p) == Some(Report(Failed, Some(v)))
          && Attempt(c, parse, state, current, f) == None
    ensures News(c, parse, state, current, f, p) == Some(Report(Updating, Some(v))) <==>
      AttemptsFor(state, v) < MAX_ATTEMPTS && f.manifest.value.hmac == Right && p == Handed
  {}

  /** A signature mismatch, like every refusal before it, changes no counter. */
  lemma MismatchChangesNothing(c: Config, parse: Parse, state: Option<Stage>, readable: bool, current: string, f: Fetch,
                               now: int, write: Write)
    requires f.Got? && f.manifest.Some? && f.manifest.value.hmac == Wrong
    ensures NextState(c, parse, state, readable, current, f, now, write) == state
    ensures Attempt(c, parse, Seen(state, readable), current, f) == None
  {}

  /** Every attempt is counted before its download, so any failure from there on uses one up. A write that is not begun
      counts nothing, and one that breaks off takes the count away. */
  lemma AttemptIsCounted(c: Config, parse: Parse, state: Option<Stage>, current: string, f: Fetch, now: int,
                         write: Write)
    requires Attempt(c, parse, state, current, f).Some?
    ensures var v := Attempt(c, parse, state, current, f).value;
      AttemptsFor(NextState(c, parse, state, true, current, f, now, write), v) ==
        match write
        case Written => AttemptsFor(state, v) + 1
        case Kept => AttemptsFor(state, v)
        case Torn => 0
  {}

  // ---- whole runs ----

  datatype Download = Download(version: string, write: Write)

  /** The agent over restarts, and its history: `log` lists the downloads, `superseded` the targets whose counter
      another target took, `faults` counts the attempts whose state file was unreadable before or broken off in the
      write. */
  datatype World = World(state: Option<Stage>, current: string, log: seq<Download>, superseded: set<string>,
                         faults: nat)

  datatype Step =
    | Checked(fetch: Fetch, progress: Progress, now: int, readable: bool, write: Write)
    | Restarted(version: string, cleared: bool)

  function Start(current: string): World {
    World(None, current, [], {}, 0)
  }

  /** The version that a check downloads. */
  function Asked(c: Config, parse: Parse, w: World, a: Step): Option<string>
    requires a.Checked?
  {
    Attempt(c, parse, Seen(w.state, a.readable), w.current, a.fetch)
  }

  function After(c: Config, parse: Parse, w: World, a: Step): World {
    match a
    case Restarted(v, cleared) => w.(state := Reconciled(w.state, v, cleared), current := v)
    case Checked(f, _, now, readable, write) =>
      match Asked(c, parse, w, a)
      case None => w
      case Some(v) =>
        World(NextState(c, parse, w.state, readable, w.current, f, now, write), w.current, w.log + [Download(v, write)],
              if write.Written? && w.state.Some? && w.state.value.target != v then w.superseded + {w.state.value.target}
              else w.superseded,
              if readable && !write.Torn? then w.faults else w.faults + 1)
  }

  function Run(c: Config, parse: Parse, w: World, steps: seq<Step>): World
    decreases |steps|
  {
    if steps == [] then w else After(c, parse, Run(c, parse, w, steps[..|steps| - 1]), steps[|steps| - 1])
  }

  lemma RunPlus(c: Config, parse: Parse, w: World, steps: seq<Step>, a: Step)
    ensures Run(c, parse, w, steps + [a]) == After(c, parse, Run(c, parse, w, steps), a)
  {
    assert (steps + [a])[..|steps|] == steps;
  }

  // ---- the counter, exactly ----

  /** Downloads of `v` recorded since its counter last started over: when the attempt of another target is written, when
      a write breaks off, when the state of an attempt could not be read, and when a restart into the very
      version clears the state. */
  function Counted(c: Config, parse: Parse, w: World, steps: seq<Step>, v: string): nat
    decreases |steps|
  {
    if steps == [] then 0
    else
      var before := steps[..|steps| - 1];
      CountedAfter(c, parse, Run(c, parse, w, before), steps[|steps| - 1], v, Counted(c, parse, w, before, v))
  }

  function CountedAfter(c: Config, parse: Parse, w: World, a: Step, v: string, n: nat): nat {
    match a
    case Restarted(version, cleared) => if version == v && cleared then 0 else n
    case Checked(_, _, _, readable, write) =>
      match Asked(c, parse, w, a)
      case None => n
      case Some(u) =>
        match write
        case Kept => n
        case Torn => 0
        case Written => if u != v then 0 else if readable then n + 1 else 1
  }

  /** Over every run, with any offers, versions and fortunes of the state file: the stored counter of a version is the
      number of downloads recorded since it last started over, and it never passes three. */
  lemma {:induction false} CounterIsExact(c: Config, parse: Parse, current: string, steps: seq<Step>, v: string)
    ensures AttemptsFor(Run(c, parse, Start(current), steps).state, v)
        == Counted(c, parse, Start(current), steps, v) <= MAX_ATTEMPTS
    decreases |steps|
  {
    hide SelectUpdate;
    if steps == [] {
    } else {
      CounterIsExact(c, parse, current, steps[..|steps| - 1], v);
    }
  }

  /** So a selected and rightly signed offer is downloaded if and only if that number is below three, or the state
      cannot be read. */
  lemma DownloadedIffBelowThree(c: Config, parse: Parse, current: string, steps: seq<Step>, a: Step, v: string)
    requires a.Checked?
    ensures var w := Run(c, parse, Start(current), steps);
      Asked(c, parse, w, a) == Some(v) <==>
        && !c.silent && c.frozen && c.hasSecret && a.fetch.Got?
        && SelectUpdate(parse, a.fetch.manifest, w.current, true) == Some(v) && a.fetch.manifest.value.hmac == Right
        && (Counted(c, parse, Start(current), steps, v) < MAX_ATTEMPTS || !a.readable)
  {
    CounterIsExact(c, parse, current, steps, v);
  }

  // ---- how many downloads there can be ----

  function Downloads(log: seq<Download>, v: string): nat {
    if log == [] then 0
    else Downloads(log[..|log| - 1], v) + (if log[|log| - 1].version == v then 1 else 0)
  }

  function Recorded(log: seq<Download>, v: string): nat {
    if log == [] then 0
    else Recorded(log[..|log| - 1], v) + (if log[|log| - 1] == Download(v, Written) then 1 else 0)
  }

  /** Downloads of `v` whose state was not written. */
  function Unrecorded(log: seq<Download>, v: string): int {
    Downloads(log, v) - Recorded(log, v)
  }

  lemma LogPlus(log: seq<Download>, d: Download, v: string)
    ensures Downloads(log + [d], v) == Downloads(log, v) + (if d.version == v then 1 else 0)
    ensures Recorded(log + [d], v) == Recorded(log, v) + (if d == Download(v, Written) then 1 else 0)
  {
    assert (log + [d])[..|log|] == log;
  }

  /** Steps that take a count of `v` away. */
  function StartOvers(c: Config, parse: Parse, w: World, steps: seq<Step>, v: string): nat
    decreases |steps|
  {
    if steps == [] then 0
    else
      var before := steps[..|steps| - 1];
      var n := Counted(c, parse, w, before, v);
      StartOvers(c, parse, w, before, v)
      + (if n > 0 && StartsOver(c, parse, Run(c, parse, w, before), steps[|steps| - 1], v) then 1 else 0)
  }

  predicate StartsOver(c: Config, parse: Parse, w: World, a: Step, v: string) {
    match a
    case Restarted(version, cleared) => version == v && cleared
    case Checked(_, _, _, readable, write) =>
      match Asked(c, parse, w, a)
      case None => false
      case Some(u) => write.Torn? || (write.Written? && (u != v || !readable))
  }

  /** Over every run a version is downloaded at most three times for each stretch between two start-overs, plus once for
      each download whose state was not written. */
  lemma {:induction false} ThreePerStretch(c: Config, parse: Parse, current: string, steps: seq<Step>, v: string)
    ensures var log := Run(c, parse, Start(current), steps).log;
      && Recorded(log, v) <= MAX_ATTEMPTS * StartOvers(c, parse, Start(current), steps, v)
          + Counted(c, parse, Start(current), steps, v)
      && Downloads(log, v) <= MAX_ATTEMPTS * (StartOvers(c, parse, Start(current), steps, v) + 1) + Unrecorded(log, v)
    decreases |steps|
  {
    hide SelectUpdate, Attempt;
    CounterIsExact(c, parse, current, steps, v);
    if steps == [] {
    } else {
      var before, a := steps[..|steps| - 1], steps[|steps| - 1];
      var w := Run(c, parse, Start(current), before);
      ThreePerStretch(c, parse, current, before, v);
      CounterIsExact(c, parse, current, before, v);
      if a.Checked? && Asked(c, parse, w, a).Some? {
        LogPlus(w.log, Download(Asked(c, parse, w, a).value, a.write), v);
      }
    }
  }

  // ---- with steady offers ----

  function Offered(f: Fetch): Option<string> {
    if f.Got? && f.manifest.Some? then f.manifest.value.version else None
  }

  /** An offer never goes back to an earlier target, and the running version never goes back. */
  ghost predicate Steady(parse: Parse, w: World, a: Step) {
    match a
    case Checked(f, _, _, _, _) => Offered(f).Some? ==> Offered(f).value !in w.superseded
    case Restarted(v, _) => parse(v).Some? && (parse(w.current).Some? ==> !parse(v).value.Below(parse(w.current).value))
  }

  ghost predicate IsSteady(c: Config, parse: Parse, w: World, steps: seq<Step>)
    decreases |steps|
  {
    steps == [] ||
    (&& IsSteady(c, parse, w, steps[..|steps| - 1])
     && Steady(parse, Run(c, parse, w, steps[..|steps| - 1]), steps[|steps| - 1]))
  }

  /** Reached, so never selected again. */
  predicate Reached(parse: Parse, v: string, current: string) {
    parse(v).Some? && parse(current).Some? && !parse(current).value.Below(parse(v).value)
  }

  predicate Retired(parse: Parse, w: World, v: string) {
    v in w.superseded || Reached(parse, v, w.current)
  }

  /** A version's recorded downloads: three for each file fault, and those counted now or before it was retired. */
  ghost predicate Inv(parse: Parse, w: World, v: string) {
    && AttemptsFor(w.state, v) <= MAX_ATTEMPTS
    && Recorded(w.log, v) <= MAX_ATTEMPTS * w.faults
        + (if Retired(parse, w, v) then MAX_ATTEMPTS else AttemptsFor(w.state, v))
  }

  lemma StepKeepsInv(c: Config, parse: Parse, w: World, a: Step, v: string)
    requires Inv(parse, w, v) && Steady(parse, w, a)
    ensures Inv(parse, After(c, parse, w, a), v)
  {
    hide Attempt, SelectUpdate;
    match a
    case Restarted(next, cleared) =>
      ReachedStays(parse, v, w.current, next);
    case Checked(_, _, _, _, _) =>
      if Asked(c, parse, w, a).Some? {
        DownloadKeepsInv(c, parse, w, a, v);
      }
  }

  lemma DownloadKeepsInv(c: Config, parse: Parse, w: World, a: Step, v: string)
    requires Inv(parse, w, v) && Steady(parse, w, a) && a.Checked? && Asked(c, parse, w, a).Some?
    ensures Inv(parse, After(c, parse, w, a), v)
  {
    hide Attempt, SelectUpdate, Steady, Reached, Recorded;
    var asked := Asked(c, parse, w, a).value;
    AskedIsOpen(c, parse, w, a);
    LogPlus(w.log, Download(asked, a.write), v);
    var w' := After(c, parse, w, a);
    if asked == v {
      assert Recorded(w'.log, v) == Recorded(w.log, v) + if a.write.Written? then 1 else 0;
    } else {
      assert Recorded(w'.log, v) == Recorded(w.log, v);
      assert Retired(parse, w, v) ==> Retired(parse, w', v);
    }
  }

  lemma ReachedStays(parse: Parse, v: string, current: string, next: string)
    requires parse(next).Some? && (parse(current).Some? ==> !parse(next).value.Below(parse(current).value))
    ensures Reached(parse, v, current) ==> Reached(parse, v, next)
    ensures v == next ==> Reached(parse, v, next)
  {
    BelowIsStrictOrder(parse(next).value, parse(next).value, parse(next).value);
    if Reached(parse, v, current) {
      BelowIsStrictOrder(parse(next).value, parse(current).value, parse(v).value);
      BelowIsStrictOrder(parse(next).value, parse(v).value, parse(current).value);
      BelowIsStrictOrder(parse(current).value, parse(next).value, parse(v).value);
    }
  }

  lemma AskedIsOpen(c: Config, parse: Parse, w: World, a: Step)
    requires Steady(parse, w, a) && a.Checked? && Asked(c, parse, w, a).Some?
    ensures var v := Asked(c, parse, w, a).value;
      AttemptsFor(Seen(w.state, a.readable), v) < MAX_ATTEMPTS && !Retired(parse, w, v)
  {
    DownloadsAreNewer(c, parse, Seen(w.state, a.readable), w.current, a.fetch);
  }

  lemma {:induction false} SteadyKeepsInv(c: Config, parse: Parse, current: string, steps: seq<Step>, v: string)
    requires IsSteady(c, parse, Start(current), steps)
    ensures Inv(parse, Run(c, parse, Start(current), steps), v)
    decreases |steps|
  {
    hide Inv, After, Steady;
    if steps == [] {
      StartKeepsInv(parse, current, v);
    } else {
      var n := |steps| - 1;
      SteadyKeepsInv(c, parse, current, steps[..n], v);
      StepKeepsInv(c, parse, Run(c, parse, Start(current), steps[..n]), steps[n], v);
    }
  }

  lemma StartKeepsInv(parse: Parse, current: string, v: string)
    ensures Inv(parse, Start(current), v)
  {}

  /** Over any run in which no offer returns to a target that another one replaced and the running version does not go
      back: a version is downloaded at most three times, three more for each fault of the state file, and once
      for each download whose state was not written. */
  lemma AtMostThreeDownloads(c: Config, parse: Parse, current: string, steps: seq<Step>, v: string)
    requires IsSteady(c, parse, Start(current), steps)
    ensures var w := Run(c, parse, Start(current), steps);
      Downloads(w.log, v) <= MAX_ATTEMPTS * (1 + w.faults) + Unrecorded(w.log, v)
  {
    SteadyKeepsInv(c, parse, current, steps, v);
  }

  /** State goes only by a restart into the very target string, or by a write that breaks off. */
  lemma ClearedOnlyAtTarget(c: Config, parse: Parse, w: World, a: Step)
    requires w.state.Some? && After(c, parse, w, a).state == None
    ensures if a.Restarted? then w.state.value.target == a.version && a.cleared
            else a.write.Torn? && Asked(c, parse, w, a).Some?
  {}

  /** A target spelled otherwise than the running version, such as 1.2.03 for 1.2.3, is reached without being cleared:
      it stays in the state file, and no offer of it is taken up again. */
  lemma SpellingKeepsState(c: Config, parse: Parse, s: Stage, current: string, cleared: bool)
    requires s.target != current && parse(s.target).Some? && parse(s.target) == parse(current)
    ensures Reconciled(Some(s), current, cleared) == Some(s)
    ensures Attempt(c, parse, Some(s), current, OfferOf(s.target)) == None
  {
    var v := parse(current).value;
    BelowIsStrictOrder(v, v, v);
  }

  // ---- runs with more than three downloads ----

  function OfferOf(v: string): Fetch {
    Got(Some(Manifest(Some(v), true, Some(1), Right)))
  }

  function Try(v: string, write: Write): Step {
    Checked(OfferOf(v), DownloadFails, 0, true, write)
  }

  predicate CanApply(c: Config) {
    c.frozen && c.hasSecret && !c.silent
  }

  lemma Tried(c: Config, parse: Parse, w: World, v: string, write: Write)
    requires CanApply(c) && Newer(parse, v, w.current) && AttemptsFor(w.state, v) < MAX_ATTEMPTS
    ensures var w' := After(c, parse, w, Try(v, write));
      && w'.current == w.current && w'.log == w.log + [Download(v, write)]
      && w'.state == match write
                     case Written => Some(Stage(v, AttemptsFor(w.state, v) + 1, 0))
                     case Kept => w.state
                     case Torn => None
  {
    assert Offered(OfferOf(v)) == Some(v);
  }

  function Repeat(v: string, write: Write, n: nat): seq<Step> {
    if n == 0 then [] else Repeat(v, write, n - 1) + [Try(v, write)]
  }

  lemma {:induction false} RepeatedTries(c: Config, parse: Parse, w: World, steps: seq<Step>, v: string, n: nat)
    requires CanApply(c) && n <= MAX_ATTEMPTS
    requires var w1 := Run(c, parse, w, steps); Newer(parse, v, w1.current) && AttemptsFor(w1.state, v) == 0
    ensures var w1, w2 := Run(c, parse, w, steps), Run(c, parse, w, steps + Repeat(v, Written, n));
      && w2.current == w1.current && (n > 0 ==> w2.state == Some(Stage(v, n, 0))) && AttemptsFor(w2.state, v) == n
      && Downloads(w2.log, v) == Downloads(w1.log, v) + n && Recorded(w2.log, v) == Recorded(w1.log, v) + n
  {
    hide After, Run, Newer, Downloads, Recorded, CanApply;
    if n == 0 {
      PlusEmpty(steps);
    } else {
      RepeatedTries(c, parse, w, steps, v, n - 1);
      var more := steps + Repeat(v, Written, n - 1);
      PlusIsAssociative(steps, Repeat(v, Written, n - 1), [Try(v, Written)]);
      RunPlus(c, parse, w, more, Try(v, Written));
      Tried(c, parse, Run(c, parse, w, more), v, Written);
      LogPlus(Run(c, parse, w, more).log, Download(v, Written), v);
    }
  }

  lemma FirstTries(c: Config, parse: Parse, v: string, current: string, n: nat)
    requires CanApply(c) && n <= MAX_ATTEMPTS && Newer(parse, v, current)
    ensures var w := Run(c, parse, Start(current), Repeat(v, Written, n));
      && w.current == current && AttemptsFor(w.state, v) == n && (n > 0 ==> w.state == Some(Stage(v, n, 0)))
      && Downloads(w.log, v) == n && Recorded(w.log, v) == n
  {
    hide After, Newer, CanApply;
    PlusEmpty(Repeat(v, Written, n));
    RepeatedTries(c, parse, Start(current), [], v, n);
  }

  /** An exhausted target, one attempt at another version, and the first target again: six recorded downloads. */
  lemma ReturningTargetStartsOver(c: Config, parse: Parse, a: string, b: string, current: string)
    requires CanApply(c) && a != b && Newer(parse, a, current) && Newer(parse, b, current)
    ensures var steps := Repeat(a, Written, 3) + [Try(b, Written)];
      && Attempt(c, parse, Run(c, parse, Start(current), Repeat(a, Written, 3)).state, current, OfferOf(a)) == None
      && Recorded(Run(c, parse, Start(current), steps + Repeat(a, Written, 3)).log, a) == 6
  {
    hide After, Run, Newer, Repeat, Downloads, Recorded;
    FirstTries(c, parse, a, current, 3);
    var three := Repeat(a, Written, 3);
    var w := Run(c, parse, Start(current), three);
    RunPlus(c, parse, Start(current), three, Try(b, Written));
    Tried(c, parse, w, b, Written);
    LogPlus(w.log, Download(b, Written), a);
    RepeatedTries(c, parse, Start(current), three + [Try(b, Written)], a, 3);
  }

  /** A target that is exhausted and then reached, and a machine rolled back below it: six as well. */
  lemma RollbackStartsOver(c: Config, parse: Parse, a: string, current: string)
    requires CanApply(c) && Newer(parse, a, current)
    ensures var steps := Repeat(a, Written, 3) + [Restarted(a, true)] + [Restarted(current, true)];
      Recorded(Run(c, parse, Start(current), steps + Repeat(a, Written, 3)).log, a) == 6
  {
    hide Run, Newer, Repeat, Downloads, Recorded;
    FirstTries(c, parse, a, current, 3);
    var three := Repeat(a, Written, 3);
    RunPlus(c, parse, Start(current), three, Restarted(a, true));
    RunPlus(c, parse, Start(current), three + [Restarted(a, true)], Restarted(current, true));
    RepeatedTries(c, parse, Start(current), three + [Restarted(a, true)] + [Restarted(current, true)], a, 3);
  }

  /** Two recorded downloads, one whose state write breaks off, and three more: six downloads, five of them recorded. */
  lemma TornWriteStartsOver(c: Config, parse: Parse, a: string, current: string)
    requires CanApply(c) && Newer(parse, a, current)
    ensures var steps := Repeat(a, Written, 2) + [Try(a, Torn)];
      var log := Run(c, parse, Start(current), steps + Repeat(a, Written, 3)).log;
      Downloads(log, a) == 6 && Recorded(log, a) == 5
  {
    hide After, Run, Newer, Repeat, Downloads, Recorded;
    FirstTries(c, parse, a, current, 2);
    var two := Repeat(a, Written, 2);
    var w := Run(c, parse, Start(current), two);
    RunPlus(c, parse, Start(current), two, Try(a, Torn));
    Tried(c, parse, w, a, Torn);
    LogPlus(w.log, Download(a, Torn), a);
    RepeatedTries(c, parse, Start(current), two + [Try(a, Torn)], a, 3);
  }

  /** An exhausted target whose state cannot be read for once is downloaded a fourth time, and counts as the first. */
  lemma UnreadableStateStartsOver(c: Config, parse: Parse, a: string, current: string)
    requires CanApply(c) && Newer(parse, a, current)
    ensures var blind := Checked(OfferOf(a), DownloadFails, 0, false, Written);
      var w := Run(c, parse, Start(current), Repeat(a, Written, 3) + [blind]);
      Recorded(w.log, a) == 4 && AttemptsFor(w.state, a) == 1
  {
    hide Run, Repeat, Downloads, Recorded;
    FirstTries(c, parse, a, current, 3);
    var three, blind := Repeat(a, Written, 3), Checked(OfferOf(a), DownloadFails, 0, false, Written);
    var w := Run(c, parse, Start(current), three);
    RunPlus(c, parse, Start(current), three, blind);
    assert Offered(OfferOf(a)) == Some(a);
    LogPlus(w.log, Download(a, Written), a);
  }

  /** And a state file that cannot be written never stops anything: any number of downloads. */
  lemma {:induction false} UnwritableStateNeverStops(c: Config, parse: Parse, a: string, current: string, n: nat)
    requires CanApply(c) && Newer(parse, a, current)
    ensures var w := Run(c, parse, Start(current), Repeat(a, Kept, n));
      w.state == None && w.current == current && Downloads(w.log, a) == n
  {
    hide After;
    if n == 0 {
    } else {
      UnwritableStateNeverStops(c, parse, a, current, n - 1);
      var w := Run(c, parse, Start(current), Repeat(a, Kept, n - 1));
      RunPlus(c, parse, Start(current), Repeat(a, Kept, n - 1), Try(a, Kept));
      Tried(c, parse, w, a, Kept);
      LogPlus(w.log, Download(a, Kept), a);
    }
  }
}
