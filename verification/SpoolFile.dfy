/** client/transport.py, buffer I/O: the offline spool as the text of one file.

    Text is what Python reads and writes in text mode, where every newline is "\n"; on disk a newline
    takes `nl` bytes (1, or 2 on Windows). */
module SpoolFile {
  import opened Wrappers
  import opened Sequences

  const MAX_BUFFER_LINES := 5000
  const MAX_BUFFER_BYTES := 50 * 1024 * 1024

  /** The characters at which `str.splitlines` breaks. */
  predicate IsBreak(c: char) {
    c in {'\U{0A}', '\U{0B}', '\U{0C}', '\U{0D}', '\U{1C}', '\U{1D}', '\U{1E}', '\U{85}', '\U{2028}', '\U{2029}'}
  }

  /** The characters that `str.strip` removes. */
  predicate IsSpace(c: char) {
    || IsBreak(c)
    || c in {'\U{09}', '\U{1F}', '\U{20}', '\U{A0}', '\U{1680}', '\U{202F}', '\U{205F}', '\U{3000}'}
    || '\U{2000}' <= c <= '\U{200A}'
  }

  predicate IsBlank(line: string) {
    forall c :: c in line ==> IsSpace(c)
  }

  predicate HasBreak(s: string) {
    exists c :: c in s && IsBreak(c)
  }

  function FirstBreak(t: string): (i: nat)
    ensures i <= |t| && !HasBreak(t[..i]) && (i < |t| ==> IsBreak(t[i]))
  {
    if t == "" then 0
    else if IsBreak(t[0]) then 0
    else
      var i := FirstBreak(t[1..]) + 1;
      assert t[..i] == [t[0]] + t[1..][..i - 1];
      i
  }

  function SplitLines(t: string): seq<string>
    decreases |t|
  {
    if t == "" then []
    else
      var i := FirstBreak(t);
      [t[..i]] + if i == |t| then [] else SplitLines(t[i + 1..])
  }

  function NonBlank(lines: seq<string>): seq<string> {
    if lines == [] then []
    else if IsBlank(lines[0]) then NonBlank(lines[1..])
    else [lines[0]] + NonBlank(lines[1..])
  }

  lemma {:induction false} NonBlankMembers(lines: seq<string>)
    ensures forall l :: l in NonBlank(lines) <==> l in lines && !IsBlank(l)
  {
    if lines == [] {
    } else {
      NonBlankMembers(lines[1..]);
      HeadPlusTail(lines);
    }
  }

  /** `_read_buffer` */
  function Lines(t: string): seq<string> {
    NonBlank(SplitLines(t))
  }

  /** `_write_buffer` */
  function Joined(lines: seq<string>): string {
    if lines == [] then "" else lines[0] + "\n" + Joined(lines[1..])
  }

  lemma {:induction false} SplitIsBreakless(t: string)
    ensures forall l :: l in SplitLines(t) ==> !HasBreak(l)
    decreases |t|
  {
    if t != "" && FirstBreak(t) < |t| {
      SplitIsBreakless(t[FirstBreak(t) + 1..]);
    }
  }

  predicate Terminated(t: string) {
    t == "" || t[|t| - 1] == '\n'
  }

  /** A line that survives being written and read back. */
  predicate Storable(line: string) {
    !HasBreak(line) && !IsBlank(line)
  }

  lemma FirstBreakAt(t: string, i: nat)
    requires i < |t| && IsBreak(t[i]) && !HasBreak(t[..i])
    ensures FirstBreak(t) == i
  {
    var j := FirstBreak(t);
    assert forall k :: 0 <= k < i ==> t[k] in t[..i];
    assert forall k :: 0 <= k < j ==> t[k] in t[..j];
  }

  lemma TerminatedHasBreak(t: string)
    requires Terminated(t) && t != ""
    ensures FirstBreak(t) < |t|
  {
    assert IsBreak(t[|t| - 1]);
    assert t[|t| - 1] in t[..|t|];
  }

  lemma SplitAt(t: string, i: nat)
    requires i < |t| && IsBreak(t[i]) && !HasBreak(t[..i])
    ensures SplitLines(t) == [t[..i]] + SplitLines(t[i + 1..])
  {
    FirstBreakAt(t, i);
  }

  lemma {:induction false} SplitAppend(t: string, u: string)
    requires Terminated(t)
    ensures SplitLines(t + u) == SplitLines(t) + SplitLines(u)
    decreases |t|
  {
    if t == "" {
      assert t + u == u;
    } else {
      TerminatedHasBreak(t);
      var i := FirstBreak(t);
      var rest := t[i + 1..];
      SplitAppend(rest, u);
      SlicePlus(t, u, i);
      SplitAt(t, i);
      SplitAt(t + u, i);
      PlusIsAssociative([t[..i]], SplitLines(rest), SplitLines(u));
    }
  }

  lemma {:induction false} NonBlankAppend(a: seq<string>, b: seq<string>)
    ensures NonBlank(a + b) == NonBlank(a) + NonBlank(b)
  {
    if a == [] {
      PlusEmpty(b);
    } else {
      TailOfPlus(a, b);
      NonBlankAppend(a[1..], b);
      PlusIsAssociative([a[0]], NonBlank(a[1..]), NonBlank(b));
    }
  }

  /** Appending to a file that ends in a newline adds the pieces of the appended line. */
  lemma AppendAddsPieces(t: string, line: string)
    requires Terminated(t)
    ensures Lines(t + line + "\n") == Lines(t) + Lines(line + "\n")
    ensures Storable(line) ==> Lines(line + "\n") == [line]
  {
    var u := line + "\n";
    PlusIsAssociative(t, line, "\n");
    SplitAppend(t, u);
    NonBlankAppend(SplitLines(t), SplitLines(u));
    if Storable(line) {
      OneLine(line);
    }
  }

  lemma OneLine(line: string)
    requires Storable(line)
    ensures SplitLines(line + "\n") == [line] && Lines(line + "\n") == [line]
  {
    var u := line + "\n";
    assert u[..|line|] == line && u[|line| + 1..] == "";
    SplitAt(u, |line|);
    PlusEmpty([line]);
    assert NonBlank([line]) == [line] + NonBlank([line][1..]);
  }

  lemma {:induction false} JoinedIsTerminated(lines: seq<string>)
    ensures Terminated(Joined(lines))
  {
    if lines == [] {
    } else {
      JoinedIsTerminated(lines[1..]);
    }
  }

  lemma {:induction false} JoinedReadsBack(lines: seq<string>)
    requires forall l :: l in lines ==> Storable(l)
    ensures Lines(Joined(lines)) == lines
  {
    if lines == [] {
    } else {
      HeadPlusTail(lines);
      var head, tail := lines[0] + "\n", Joined(lines[1..]);
      JoinedReadsBack(lines[1..]);
      OneLine(lines[0]);
      SplitAppend(head, tail);
      NonBlankAppend(SplitLines(head), SplitLines(tail));
    }
  }

  /** The spool round trip holds for exactly the lines free of line breaks and not blank. JSON text
      may still hold U+0085, U+2028 and U+2029, at which `splitlines` breaks. */
  lemma SpoolRoundTrip(lines: seq<string>)
    ensures Lines(Joined(lines)) == lines <==> forall l :: l in lines ==> Storable(l)
  {
    SplitIsBreakless(Joined(lines));
    NonBlankMembers(SplitLines(Joined(lines)));
    if forall l :: l in lines ==> Storable(l) {
      JoinedReadsBack(lines);
    }
  }

  lemma SeparatorSplitsAnEnvelope(before: string, after: string)
    requires Storable(before) && Storable(after)
    ensures Lines(before + "\U{2028}" + after + "\n") == [before, after]
  {
    var t := before + "\U{2028}" + after + "\n";
    assert t[..|before|] == before && t[|before|] == '\U{2028}' && t[|before| + 1..] == after + "\n";
    SplitAt(t, |before|);
    OneLine(after);
    OneLine(before);
    NonBlankAppend([before], [after]);
  }

  lemma TwoSeparators(before: string, mid: string, after: string)
    requires Storable(before) && Storable(mid) && Storable(after)
    ensures Lines(before + "\U{2028}" + mid + "\U{2028}" + after + "\n") == [before, mid, after]
  {
    var rest := mid + "\U{2028}" + after + "\n";
    var t := before + "\U{2028}" + mid + "\U{2028}" + after + "\n";
    assert t[..|before|] == before && t[|before|] == '\U{2028}' && t[|before| + 1..] == rest;
    SplitAt(t, |before|);
    SeparatorSplitsAnEnvelope(mid, after);
    OneLine(before);
    NonBlankAppend([before], SplitLines(rest));
  }

  /** An append that stops after writing `torn` leaves the file without a final newline, and the next
      envelope is then read as part of the torn line. */
  lemma TornAppendSwallowsNext(t: string, torn: string, next: string)
    requires Terminated(t) && !HasBreak(torn) && Storable(next)
    ensures Lines(t + torn + next + "\n") == Lines(t) + [torn + next]
  {
    var merged := torn + next;
    assert forall c :: c in merged <==> c in torn || c in next;
    AppendAddsPieces(t, merged);
    PlusIsAssociative(t, torn, next);
  }

  // ---- a file whose last append broke off ----

  /** The end of the last line that is terminated. */
  function LastEnd(t: string): (n: nat)
    ensures n <= |t| && Terminated(t[..n])
  {
    if Terminated(t) then
      assert t[..|t|] == t;
      |t|
    else
      var n := LastEnd(t[..|t| - 1]);
      assert t[..|t| - 1][..n] == t[..n];
      n
  }

  function Head(t: string): (h: string)
    ensures Terminated(h)
  {
    t[..LastEnd(t)]
  }

  /** What follows the last newline: "" unless an append broke off. */
  function Tail(t: string): string {
    t[LastEnd(t)..]
  }

  lemma {:induction false} LastEndOfMore(h: string, u: string)
    requires Terminated(h)
    ensures LastEnd(h + u) == |h| + LastEnd(u)
  {
    if u == "" {
      PlusEmpty(h);
    } else {
      assert (h + u)[|h + u| - 1] == u[|u| - 1];
      if !Terminated(u) {
        assert (h + u)[..|h + u| - 1] == h + u[..|u| - 1];
        LastEndOfMore(h, u[..|u| - 1]);
      }
    }
  }

  lemma TailOfMore(h: string, u: string)
    requires Terminated(h)
    ensures Tail(h + u) == Tail(u) && Head(h + u) == h + Head(u)
  {
    LastEndOfMore(h, u);
    assert (h + u)[|h| + LastEnd(u)..] == u[LastEnd(u)..];
    assert (h + u)[..|h| + LastEnd(u)] == h + u[..LastEnd(u)];
  }

  lemma HeadPlusItsTail(t: string)
    ensures Head(t) + Tail(t) == t
  {}

  /** The lines of a file are those up to its last newline, and the pieces of what follows. */
  lemma LinesOfParts(t: string)
    ensures Lines(t) == Lines(Head(t)) + Lines(Tail(t))
  {
    HeadPlusItsTail(t);
    SplitAppend(Head(t), Tail(t));
    NonBlankAppend(SplitLines(Head(t)), SplitLines(Tail(t)));
  }

  /** What an append of `line` writes: all of it, or the first `k` characters before it breaks off. */
  function Written(line: string, broken: Option<nat>): string {
    match broken
    case None => line + "\n"
    case Some(k) => (line + "\n")[..if k <= |line| then k else |line| + 1]
  }

  lemma WrittenAdds(t: string, more: string)
    ensures Lines(Head(t + more)) == Lines(Head(t)) + Lines(Head(Tail(t) + more))
    ensures Tail(t + more) == Tail(Tail(t) + more)
  {
    HeadPlusItsTail(t);
    PlusIsAssociative(Head(t), Tail(t), more);
    TailOfMore(Head(t), Tail(t) + more);
    SplitAppend(Head(t), Head(Tail(t) + more));
    NonBlankAppend(SplitLines(Head(t)), SplitLines(Head(Tail(t) + more)));
  }

  lemma TerminatedParts(t: string)
    requires Terminated(t)
    ensures Tail(t) == "" && Head(t) == t
  {}

  // ---- sizes ----

  function Utf8(c: char): nat {
    if c < '\U{80}' then 1 else if c < '\U{800}' then 2 else if c < '\U{10000}' then 3 else 4
  }

  function Utf8Length(s: string): nat {
    if s == "" then 0 else Utf8(s[0]) + Utf8Length(s[1..])
  }

  /** The size of the file that holds text `t`. */
  function FileSize(t: string, nl: nat): nat {
    if t == "" then 0 else (if t[0] == '\n' then nl else Utf8(t[0])) + FileSize(t[1..], nl)
  }

  function Bytes(lines: seq<string>, nl: nat): nat {
    if lines == [] then 0 else Utf8Length(lines[0]) + nl + Bytes(lines[1..], nl)
  }

  /** `json.dumps` escapes control characters, so the only break below U+0085 is the newline. */
  predicate JsonText(t: string) {
    forall c :: c in t ==> c == '\n' || c >= ' '
  }

  lemma {:induction false} FileSizeSplit(t: string, i: nat, nl: nat)
    requires i <= |t|
    ensures FileSize(t, nl) == FileSize(t[..i], nl) + FileSize(t[i..], nl)
  {
    if i == 0 {
      assert t[..i] == "" && t[i..] == t;
    } else {
      FileSizeSplit(t[1..], i - 1, nl);
      assert t[..i][1..] == t[1..][..i - 1] && t[i..] == t[1..][i - 1..];
    }
  }

  lemma {:induction false} BreaklessSize(t: string, nl: nat)
    requires !HasBreak(t)
    ensures FileSize(t, nl) == Utf8Length(t)
  {
    if t == "" {
    } else {
      assert t[0] in t && forall c :: c in t[1..] ==> c in t;
      BreaklessSize(t[1..], nl);
    }
  }

  lemma {:induction false} LinesFitFile(t: string, nl: nat)
    requires Terminated(t) && JsonText(t) && nl <= 2
    ensures Bytes(SplitLines(t), nl) <= FileSize(t, nl)
    decreases |t|
  {
    if t == "" {
    } else {
      TerminatedHasBreak(t);
      var i := FirstBreak(t);
      var rest := t[i + 1..];
      Slices(t, i + 1);
      FileSizeSplit(t, i, nl);
      assert t[i..][0] == t[i] && t[i..][1..] == rest && t[i] in t;
      assert FileSize(t[i..], nl) >= nl + FileSize(rest, nl);
      BreaklessSize(t[..i], nl);
      LinesFitFile(rest, nl);
      SplitAt(t, i);
      assert Bytes([t[..i]] + SplitLines(rest), nl) == Utf8Length(t[..i]) + nl + Bytes(SplitLines(rest), nl);
    }
  }

  lemma {:induction false} NonBlankBytes(lines: seq<string>, nl: nat)
    ensures Bytes(NonBlank(lines), nl) <= Bytes(lines, nl)
  {
    if lines == [] {
    } else {
      NonBlankBytes(lines[1..], nl);
      ConsTail(lines[0], NonBlank(lines[1..]));
    }
  }

  // ---- trimming ----

  predicate Fits(lines: seq<string>, nl: nat) {
    |lines| <= MAX_BUFFER_LINES && Bytes(lines, nl) <= MAX_BUFFER_BYTES
  }

  /** The longest suffix that fits both caps. */
  function LongestFit(lines: seq<string>, nl: nat): seq<string> {
    if Fits(lines, nl) then lines
    else if lines == [] then []
    else LongestFit(lines[1..], nl)
  }

  lemma {:induction false} SuffixBytes(lines: seq<string>, k: nat, nl: nat)
    requires k <= |lines|
    ensures Bytes(lines[k..], nl) <= Bytes(lines, nl)
  {
    if k == 0 {
      assert lines[k..] == lines;
    } else {
      SuffixBytes(lines[1..], k - 1, nl);
      assert lines[k..] == lines[1..][k - 1..];
    }
  }

  lemma {:induction false} LongestFitIsLongest(lines: seq<string>, nl: nat)
    ensures var kept := LongestFit(lines, nl);
      && |kept| <= |lines| && kept == lines[|lines| - |kept|..]
      && Fits(kept, nl)
      && forall k :: 0 <= k < |lines| - |kept| ==> !Fits(lines[k..], nl)
  {
    if Fits(lines, nl) || lines == [] {
      assert lines[0..] == lines;
    } else {
      LongestFitIsLongest(lines[1..], nl);
      var kept := LongestFit(lines[1..], nl);
      forall k | 0 <= k < |lines| - |kept| ensures !Fits(lines[k..], nl) {
        if k == 0 {
          assert lines[k..] == lines;
        } else {
          assert lines[k..] == lines[1..][k - 1..];
        }
      }
    }
  }

  lemma LongestFitFrom(lines: seq<string>, k: nat, nl: nat)
    requires k <= |lines| && Fits(lines[k..], nl)
    requires forall j :: 0 <= j < k ==> !Fits(lines[j..], nl)
    ensures LongestFit(lines, nl) == lines[k..]
  {
    LongestFitIsLongest(lines, nl);
    assert Fits(LongestFit(lines, nl), nl);
  }

  /** The spool file. None: there is no file. */
  class Spool {
    var text: Option<string>
    const nl: nat

    constructor (nl: nat)
      ensures text == None && this.nl == nl
    {
      text, this.nl := None, nl;
    }

    ghost predicate Valid()
      reads this
    {
      JsonText(text.GetOr("")) && nl <= 2
    }

    /** The lines up to the last newline, and what follows it. */
    ghost function Parts(): (seq<string>, string)
      reads this
    {
      (Lines(Head(text.GetOr(""))), Tail(text.GetOr("")))
    }

    ghost function Content(): (lines: seq<string>)
      reads this
      ensures forall l :: l in lines ==> Storable(l)
      ensures lines == Parts().0 + Lines(Parts().1)
    {
      LinesOfParts(text.GetOr(""));
      SplitIsBreakless(text.GetOr(""));
      NonBlankMembers(SplitLines(text.GetOr("")));
      Lines(text.GetOr(""))
    }

    method Read(fails: bool) returns (lines: seq<string>)
      ensures lines == if fails then [] else Content()
    {
      if text.None? || fails {
        return [];
      }
      lines := Lines(text.value);
    }

    /** Temporary file and rename: a failure leaves the old file. */
    method Write(lines: seq<string>, fails: bool)
      requires Valid() && forall l :: l in lines ==> Storable(l) && JsonText(l)
      modifies this
      ensures Valid()
      ensures text == if fails then old(text) else if lines == [] then None else Some(Joined(lines))
      ensures Parts() == if fails then old(Parts()) else (lines, "")
    {
      if fails {
        return;
      }
      text := if lines == [] then None else Some(Joined(lines));
      JoinedIsTerminated(lines);
      JoinedIsJson(lines);
      JoinedReadsBack(lines);
      TerminatedParts(text.GetOr(""));
    }

    /** What became of the file when an append broke off is not trimmed. */
    method Append(line: string, broken: Option<nat>, trimReadFails: bool, trimWriteFails: bool)
      requires Valid() && JsonText(line)
      modifies this
      ensures Valid()
      ensures Parts() == AfterAppend(old(Parts()).0, old(Parts()).1, line, nl, broken, trimReadFails, trimWriteFails)
    {
      hide Tail, Lines;
      var more := Written(line, broken);
      ghost var before := text.GetOr("");
      WrittenAdds(before, more);
      assert forall c :: c in more ==> c in line + "\n";
      assert forall c :: c in before + more ==> c in before || c in more;
      text := Some(text.GetOr("") + more);
      if broken.Some? {
        return;
      }
      assert more[|line|] == '\n' && text.value[|text.value| - 1] == '\n';
      TerminatedParts(text.value);
      TerminatedParts(Tail(before) + more);
      Trim(trimReadFails, trimWriteFails);
    }

    method Trim(readFails: bool, writeFails: bool)
      requires Valid() && Terminated(text.GetOr(""))
      modifies this
      ensures Valid()
      ensures Parts() == (if readFails || writeFails then old(Content()) else LongestFit(old(Content()), nl), "")
    {
      TerminatedParts(text.GetOr(""));
      var oversize := FileSize(text.GetOr(""), nl) > MAX_BUFFER_BYTES;
      var lines := Read(readFails);
      if !oversize && !readFails {
        LinesFitFile(text.GetOr(""), nl);
        NonBlankBytes(SplitLines(text.GetOr("")), nl);
      }
      var kept := Keep(lines, oversize, nl);
      LongestFitIsLongest(lines, nl);
      if |kept| != |lines| {
        LinesAreJson(text.GetOr(""));
        Write(kept, writeFails);
      }
    }
  }

  /** The lines that `_trim_buffer` keeps. */
  method Keep(lines: seq<string>, oversize: bool, nl: nat) returns (kept: seq<string>)
    requires !oversize ==> Bytes(lines, nl) <= MAX_BUFFER_BYTES
    ensures kept == LongestFit(lines, nl)
  {
    kept := if |lines| > MAX_BUFFER_LINES then lines[|lines| - MAX_BUFFER_LINES..] else lines;
    assert kept == lines[|lines| - |kept|..];
    if oversize {
      var total := Bytes(kept, nl);
      while kept != [] && total > MAX_BUFFER_BYTES
        invariant |kept| <= |lines| && kept == lines[|lines| - |kept|..] && |kept| <= MAX_BUFFER_LINES
        invariant total == Bytes(kept, nl)
        invariant forall j :: 0 <= j < |lines| - |kept| ==> !Fits(lines[j..], nl)
      {
        total := total - (Utf8Length(kept[0]) + nl);
        kept := kept[1..];
      }
    } else {
      SuffixBytes(lines, |lines| - |kept|, nl);
    }
    LongestFitFrom(lines, |lines| - |kept|, nl);
  }

  /** The parts of the file after an append: `base` are the lines up to its last newline, `tail` what follows. */
  function AfterAppend(base: seq<string>, tail: string, line: string, nl: nat, broken: Option<nat>,
                       trimReadFails: bool, trimWriteFails: bool): (seq<string>, string)
  {
    var more := tail + Written(line, broken);
    var grown := base + Lines(Head(more));
    (if broken.Some? || trimReadFails || trimWriteFails then grown else LongestFit(grown, nl), Tail(more))
  }

  lemma {:induction false} JoinedIsJson(lines: seq<string>)
    requires forall l :: l in lines ==> JsonText(l)
    ensures JsonText(Joined(lines))
  {
    if lines == [] {
    } else {
      assert lines[0] in lines && forall l :: l in lines[1..] ==> l in lines;
      JoinedIsJson(lines[1..]);
    }
  }

  lemma {:induction false} LinesAreJson(t: string)
    requires JsonText(t)
    ensures forall l :: l in Lines(t) ==> JsonText(l)
  {
    SplitIsJson(t);
    NonBlankMembers(SplitLines(t));
  }

  lemma {:induction false} SplitIsJson(t: string)
    requires JsonText(t)
    ensures forall l :: l in SplitLines(t) ==> JsonText(l)
    decreases |t|
  {
    if t == "" {
    } else {
      var i := FirstBreak(t);
      Slices(t, i);
      if i < |t| {
        Slices(t, i + 1);
        SplitIsJson(t[i + 1..]);
      }
    }
  }
}
