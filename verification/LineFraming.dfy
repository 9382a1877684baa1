/**
 Waiting for a matching line of a file that grows while it is read (`wait_for_event`,
 scripts/cdp-wait.py). How the writer splits its appends is a function from poll to the length
 visible then; `matches` is what the script decides about one line.
 */
module LineFraming {
  import opened Wrappers

  /** Position just past the first newline at or after `from`, within the first `limit` characters. */
  function NextLine(file: string, from: nat, limit: nat): (e: Option<nat>)
    requires limit <= |file|
    ensures e.Some? ==> from < e.value <= limit && file[e.value - 1] == '\n'
    decreases limit - from
  {
    if from >= limit then None
    else if file[from] == '\n' then Some(from + 1)
    else NextLine(file, from + 1, limit)
  }

  datatype Line = Line(start: nat, end: nat)

  /** The first matching complete line from a line start on. */
  function FirstMatch(file: string, from: nat, limit: nat, matches: string -> bool): (r: Option<Line>)
    requires limit <= |file|
    ensures r.Some? ==> from <= r.value.start < r.value.end <= limit
    decreases limit - from
  {
    match NextLine(file, from, limit)
    case None => None
    case Some(e) => if matches(file[from..e]) then Some(Line(from, e)) else FirstMatch(file, e, limit, matches)
  }

  /** All complete lines from a line start on. */
  function Lines(file: string, from: nat, limit: nat): (r: seq<Line>)
    requires limit <= |file|
    ensures forall line <- r :: from <= line.start < line.end <= limit
    decreases limit - from
  {
    match NextLine(file, from, limit)
    case None => []
    case Some(e) => [Line(from, e)] + Lines(file, e, limit)
  }

  ghost predicate NoNewline(file: string, from: nat, to: nat)
    requires to <= |file|
  {
    forall i | from <= i < to :: file[i] != '\n'
  }

  lemma {:induction false} NextLineIff(file: string, from: nat, limit: nat)
    requires limit <= |file|
    ensures NextLine(file, from, limit).None? <==> NoNewline(file, from, limit)
    ensures NextLine(file, from, limit).Some? ==> NoNewline(file, from, NextLine(file, from, limit).value - 1)
    decreases limit - from
  {
    if from < limit && file[from] != '\n' { NextLineIff(file, from + 1, limit); }
  }

  lemma {:induction false} NextLineIs(file: string, from: nat, e: nat, limit: nat)
    requires from < e <= limit <= |file| && file[e - 1] == '\n' && NoNewline(file, from, e - 1)
    ensures NextLine(file, from, limit) == Some(e)
    decreases e - from
  {
    if from + 1 < e { NextLineIs(file, from + 1, e, limit); }
  }

  /** A complete line stays complete as the file grows. */
  lemma {:induction false} MatchStays(file: string, from: nat, limit: nat, longer: nat, matches: string -> bool)
    requires limit <= longer <= |file| && FirstMatch(file, from, limit, matches).Some?
    ensures FirstMatch(file, from, longer, matches) == FirstMatch(file, from, limit, matches)
    decreases limit - from
  {
    var e := NextLine(file, from, limit).value;
    NextLineIff(file, from, limit);
    NextLineIs(file, from, e, longer);
    if !matches(file[from..e]) { MatchStays(file, e, limit, longer, matches); }
  }

  /** The file only grows, up to its final content. */
  ghost predicate Growing(visible: nat -> nat, file: string) {
    && (forall i :: visible(i) <= |file|)
    && forall i, j | i <= j :: visible(i) <= visible(j)
  }

  datatype WaitResult = Matched(line: string, offset: nat) | TimedOut(offset: nat)

  /** No line between `from` and `start` matches, whatever of the file is visible. */
  ghost predicate Passed(file: string, from: nat, start: nat, matches: string -> bool) {
    && from <= start
    && forall n | start <= n <= |file| :: FirstMatch(file, from, n, matches) == FirstMatch(file, start, n, matches)
  }

  lemma PassLine(file: string, from: nat, start: nat, e: nat, matches: string -> bool)
    requires Passed(file, from, start, matches)
    requires start < e <= |file| && file[e - 1] == '\n' && NoNewline(file, start, e - 1) && !matches(file[start..e])
    ensures Passed(file, from, e, matches)
  {
    forall n | e <= n <= |file| ensures FirstMatch(file, from, n, matches) == FirstMatch(file, e, n, matches) {
      NextLineIs(file, start, e, n);
    }
  }

  /**
   `wait_for_event` from an offset: poll `i` sees the first `visible(i)` characters, and from
   poll `deadline` on the time is up. A match is the first one in the file, however it was
   written; a timeout at poll `last` means none was visible by then.
   */
  method WaitForEvent(file: string, visible: nat -> nat, deadline: nat, from: nat, matches: string -> bool)
    returns (r: WaitResult, last: nat)
    requires Growing(visible, file)
    ensures match r
            case Matched(line, offset) =>
              var first := FirstMatch(file, from, |file|, matches);
              first.Some? && line == file[first.value.start..first.value.end] && offset == first.value.end
              && FirstMatch(file, from, visible(last), matches) == first
            case TimedOut(offset) =>
              && last >= deadline && FirstMatch(file, from, visible(last), matches) == None
              && offset == if visible(last) < from then from else visible(last)
  {
    var pos: nat, i: nat, pending := from, 0, "";
    ghost var start: nat := from;
    while true
      invariant Passed(file, from, start, matches) && Holding(file, start, pos, pending)
      invariant pos == from || pos <= visible(i)
      decreases if pos <= |file| then |file| - pos else 0, if i < deadline then deadline - i else 0
    {
      var limit := visible(i);
      if pos < limit {
        var end := ReadLine(file, pos, limit);
        Extend(file, start, pos, pending, end);
        pending := pending + file[pos..end];
        pos := end;
        if file[end - 1] != '\n' { i := i + 1; continue; }
        if matches(pending) {
          NextLineIs(file, start, pos, limit);
          MatchStays(file, start, limit, |file|, matches);
          return Matched(pending, pos), i;
        }
        PassLine(file, from, start, pos, matches);
        pending, start := "", pos;
        i := i + 1;
        continue;
      }
      if i >= deadline {
        NothingVisible(file, from, start, pos, limit, matches);
        return TimedOut(pos), i;
      }
      i := i + 1;
    }
  }

  /** What is pending is the incomplete line from `start`; past the end of the file nothing was read. */
  ghost predicate Holding(file: string, start: nat, pos: nat, pending: string) {
    && start <= pos
    && (pos > |file| ==> start == pos)
    && (pos <= |file| ==> NoNewline(file, start, pos) && pending == file[start..pos])
  }

  /** `readline`: up to and including the next newline, or all that is visible. */
  function ReadLine(file: string, pos: nat, limit: nat): (end: nat)
    requires pos < limit <= |file|
    ensures pos < end <= limit && NoNewline(file, pos, end - 1)
    ensures file[end - 1] != '\n' ==> end == limit
  {
    NextLineIff(file, pos, limit);
    var next := NextLine(file, pos, limit);
    if next.Some? then next.value else limit
  }

  lemma Extend(file: string, start: nat, pos: nat, pending: string, end: nat)
    requires Holding(file, start, pos, pending) && pos < end <= |file| && NoNewline(file, pos, end - 1)
    ensures pending + file[pos..end] == file[start..end] && NoNewline(file, start, end - 1)
    ensures file[end - 1] != '\n' ==> Holding(file, start, end, pending + file[pos..end])
  {
  }

  lemma NothingVisible(file: string, from: nat, start: nat, pos: nat, limit: nat, matches: string -> bool)
    requires Passed(file, from, start, matches) && start <= pos && limit <= |file| && limit <= pos
    requires pos == from || pos <= limit
    requires pos <= |file| ==> NoNewline(file, start, pos)
    ensures FirstMatch(file, from, limit, matches) == None
  {
    if limit >= start {
      NextLineIff(file, start, limit);
    }
  }

  // ---------------------------------------------------------------------------
  // Chained waits
  // ---------------------------------------------------------------------------

  /** The lines tile the file from `from` on: each ends at its own only newline, where the next starts. */
  lemma {:induction false} LinesTile(file: string, from: nat, limit: nat, i: nat)
    requires from <= limit <= |file| && i < |Lines(file, from, limit)|
    ensures var lines := Lines(file, from, limit);
            var line := lines[i];
            && line.start == (if i == 0 then from else lines[i - 1].end)
            && file[line.end - 1] == '\n' && NoNewline(file, line.start, line.end - 1)
            && NoNewline(file, lines[|lines| - 1].end, limit)
    decreases limit - from
  {
    NextLineIff(file, from, limit);
    var e := NextLine(file, from, limit).value;
    var rest := Lines(file, e, limit);
    assert Lines(file, from, limit) == [Line(from, e)] + rest;
    if rest == [] {
      NextLineIff(file, e, limit);
    } else {
      LinesTile(file, e, limit, if i == 0 then 0 else i - 1);
    }
  }

  function Matching(file: string, lines: seq<Line>, matches: string -> bool): seq<Line>
    requires forall line <- lines :: line.start < line.end <= |file|
  {
    if lines == [] then []
    else (if matches(file[lines[0].start..lines[0].end]) then [lines[0]] else [])
         + Matching(file, lines[1..], matches)
  }

  /** What up to k matched waits yield, each starting at the offset the one before returned. */
  function Chain(file: string, from: nat, k: nat, matches: string -> bool): seq<Line>
    decreases k
  {
    if k == 0 then []
    else match FirstMatch(file, from, |file|, matches)
      case None => []
      case Some(line) => [line] + Chain(file, line.end, k - 1, matches)
  }

  function Take(lines: seq<Line>, k: nat): seq<Line> {
    if |lines| <= k then lines else lines[..k]
  }

  /** Chained waits visit every matching line once, in order. */
  lemma {:induction false} ChainVisitsEveryMatch(file: string, from: nat, k: nat, matches: string -> bool)
    ensures Chain(file, from, k, matches) == Take(Matching(file, Lines(file, from, |file|), matches), k)
    decreases |file| - from, k
  {
    var all := Matching(file, Lines(file, from, |file|), matches);
    match NextLine(file, from, |file|)
    case None =>
    case Some(e) =>
      var rest := Matching(file, Lines(file, e, |file|), matches);
      assert Lines(file, from, |file|)[1..] == Lines(file, e, |file|);
      if k > 0 {
        if matches(file[from..e]) {
          ChainVisitsEveryMatch(file, e, k - 1, matches);
          assert all == [Line(from, e)] + rest;
          TakeCons(Line(from, e), rest, k);
        } else {
          ChainVisitsEveryMatch(file, e, k, matches);
          ChainSkips(file, from, e, k, matches);
          assert all == rest;
        }
      }
  }

  lemma TakeCons(line: Line, rest: seq<Line>, k: nat)
    requires k > 0
    ensures Take([line] + rest, k) == [line] + Take(rest, k - 1)
  {
  }

  lemma ChainSkips(file: string, from: nat, e: nat, k: nat, matches: string -> bool)
    requires NextLine(file, from, |file|) == Some(e) && !matches(file[from..e])
    ensures Chain(file, from, k, matches) == Chain(file, e, k, matches)
  {
  }

  // ---------------------------------------------------------------------------
  // Resuming after a timeout
  // ---------------------------------------------------------------------------

  /** Start of the line that `seen` stands in, or at the start of. */
  function LineStartBefore(file: string, from: nat, seen: nat): (s: nat)
    requires from <= seen <= |file|
    ensures from <= s <= seen
    decreases seen - from
  {
    match NextLine(file, from, seen)
    case None => from
    case Some(e) => LineStartBefore(file, e, seen)
  }

  lemma {:induction false} NoneUpToLineStart(file: string, from: nat, seen: nat, matches: string -> bool)
    requires from <= seen <= |file| && FirstMatch(file, from, seen, matches) == None
    ensures var s := LineStartBefore(file, from, seen);
            NoNewline(file, s, seen) && FirstMatch(file, from, |file|, matches) == FirstMatch(file, s, |file|, matches)
    decreases seen - from
  {
    NextLineIff(file, from, seen);
    match NextLine(file, from, seen)
    case None =>
    case Some(e) =>
      NoneUpToLineStart(file, e, seen, matches);
      NextLineIs(file, from, e, |file|);
  }

  /**
   A timeout returns the end of what was visible, which may lie inside a line. Resuming there
   finds what waiting on would have found exactly when it is a line start, or the line is never
   completed, or neither the whole line nor the part of it still to come matches.
   */
  lemma ResumeAgreesIff(file: string, from: nat, seen: nat, matches: string -> bool)
    requires from <= seen <= |file| && FirstMatch(file, from, seen, matches) == None
    ensures var s, e := LineStartBefore(file, from, seen), NextLine(file, seen, |file|);
            FirstMatch(file, seen, |file|, matches) == FirstMatch(file, from, |file|, matches)
            <==> s == seen || e.None? || (!matches(file[s..e.value]) && !matches(file[seen..e.value]))
  {
    var s, e := LineStartBefore(file, from, seen), NextLine(file, seen, |file|);
    NoneUpToLineStart(file, from, seen, matches);
    NextLineIff(file, seen, |file|);
    if e.Some? {
      NextLineIs(file, s, e.value, |file|);
      AgreeIff(file, s, seen, e.value, matches);
    } else {
      NextLineIff(file, s, |file|);
    }
  }

  lemma AgreeIff(file: string, s: nat, seen: nat, e: nat, matches: string -> bool)
    requires s <= seen && NextLine(file, s, |file|) == Some(e) && NextLine(file, seen, |file|) == Some(e)
    ensures FirstMatch(file, seen, |file|, matches) == FirstMatch(file, s, |file|, matches)
       <==> s == seen || (!matches(file[s..e]) && !matches(file[seen..e]))
  {
    var rest := FirstMatch(file, e, |file|, matches);
    assert FirstMatch(file, s, |file|, matches) == if matches(file[s..e]) then Some(Line(s, e)) else rest;
    assert FirstMatch(file, seen, |file|, matches) == if matches(file[seen..e]) then Some(Line(seen, e)) else rest;
  }

  /**
   The condition is needed. A wait that times out while only `head` of a line is visible, and is
   resumed at the offset it returned, misses the line although it matches, and takes the rest
   of the line for one of its own.
   */
  lemma SplitLineIsMissed(head: string, tail: string, matches: string -> bool)
    requires head != "" && NoNewline(head + tail, 0, |head + tail|)
    ensures var file := head + tail + "\n";
            && FirstMatch(file, 0, |head|, matches) == None
            && FirstMatch(file, 0, |file|, matches) == (if matches(file) then Some(Line(0, |file|)) else None)
            && FirstMatch(file, |head|, |file|, matches)
               == (if matches(tail + "\n") then Some(Line(|head|, |file|)) else None)
  {
    var file := head + tail + "\n";
    assert forall i | 0 <= i < |head + tail| :: file[i] == (head + tail)[i];
    NextLineIff(file, 0, |head|);
    NextLineIs(file, 0, |file|, |file|);
    NextLineIs(file, |head|, |file|, |file|);
    assert file[0..|file|] == file && file[|head|..|file|] == tail + "\n";
  }

  /** One such file: a matching event whose line was half written at the deadline is never found. */
  lemma HalfWrittenEventIsMissed()
    ensures var matches := (line: string) => line == "ab\n";
            && FirstMatch("ab\n", 0, 3, matches) == Some(Line(0, 3))
            && FirstMatch("ab\n", 0, 1, matches) == None && FirstMatch("ab\n", 1, 3, matches) == None
  {
    assert "a" + "b" + "\n" == "ab\n" && "b" + "\n" == "b\n";
    assert "b\n" != "ab\n" by { assert |"b\n"| != |"ab\n"|; }
    SplitLineIsMissed("a", "b", (line: string) => line == "ab\n");
  }
}
