/** From a log's lines to ranked error blocks within a budget: nothing that looks like an error is lost on the way. */
module LogText {
  import opened Wrappers

  /** What the patterns decide about one line. */
  datatype Rules = Rules(
    errorish: string -> bool, opens: string -> bool, closes: string -> bool,
    spinner: string -> bool, blank: string -> bool, key: string -> string, signature: string -> Option<Signature>)

  datatype Signature = Signature(id: string, rank: int)

  // ---- repeated lines --------------------------------------------------------------------------

  /** Whether a later line belongs to the run a line began: any spinner frame after a spinner frame, else the same text
      up to digits. */
  predicate Repeats(u: Rules, first: string, line: string) {
    !u.blank(line) && if u.spinner(first) then u.spinner(line) else u.key(line) == u.key(first)
  }

  function RunOf(u: Rules, first: string, lines: seq<string>): (n: nat)
    ensures n <= |lines| && forall k | 0 <= k < n :: Repeats(u, first, lines[k])
  {
    if lines == [] || !Repeats(u, first, lines[0]) then 0 else 1 + RunOf(u, first, lines[1..])
  }

  /** What one run leaves: its first line and a summary when it is long, itself otherwise. `summary` words the
      summary from the number of repeats and the last line. */
  function Shorten(u: Rules, run: seq<string>, summary: (nat, string) -> string): seq<string>
    requires run != []
  {
    if |run| > 2 && !u.blank(run[0]) then [run[0], summary(|run| - 1, run[|run| - 1])] else run
  }

  function Collapse(u: Rules, lines: seq<string>, summary: (nat, string) -> string): seq<string>
    decreases |lines|
  {
    if lines == [] then []
    else
      var n := 1 + RunOf(u, lines[0], lines[1..]);
      Shorten(u, lines[..n], summary) + Collapse(u, lines[n..], summary)
  }

  method FindRun(u: Rules, lines: seq<string>, i: nat) returns (j: nat)
    requires i < |lines|
    ensures i < j <= |lines| && j - i == 1 + RunOf(u, lines[i], lines[i + 1..])
  {
    j := i + 1;
    while j < |lines| && Repeats(u, lines[i], lines[j])
      invariant i < j <= |lines|
      invariant RunOf(u, lines[i], lines[i + 1..]) == j - i - 1 + RunOf(u, lines[i], lines[j..])
    {
      assert lines[j..][0] == lines[j] && lines[j..][1..] == lines[j + 1..];
      j := j + 1;
    }
  }

  lemma CollapseFirst(u: Rules, lines: seq<string>, n: nat, summary: (nat, string) -> string)
    requires lines != [] && n == 1 + RunOf(u, lines[0], lines[1..])
    ensures Collapse(u, lines, summary) == Shorten(u, lines[..n], summary) + Collapse(u, lines[n..], summary)
  {}

  lemma CollapseOne(u: Rules, lines: seq<string>, i: nat, j: nat, summary: (nat, string) -> string)
    requires i < j <= |lines| && j - i == 1 + RunOf(u, lines[i], lines[i + 1..])
    ensures Collapse(u, lines[i..], summary) == Shorten(u, lines[i..j], summary) + Collapse(u, lines[j..], summary)
  {
    var rest, n := lines[i..], j - i;
    assert rest[0] == lines[i] && rest[1..] == lines[i + 1..];
    assert rest[..n] == lines[i..j] && rest[n..] == lines[j..];
    CollapseFirst(u, rest, n, summary);
  }

  method CollapseRepeats(u: Rules, lines: seq<string>, summary: (nat, string) -> string) returns (shortened: seq<string>)
    ensures shortened == Collapse(u, lines, summary)
  {
    hide Collapse, RunOf, Shorten;
    shortened := [];
    var i := 0;
    assert lines[0..] == lines;
    while i < |lines|
      invariant 0 <= i <= |lines|
      invariant Collapse(u, lines, summary) == shortened + Collapse(u, lines[i..], summary)
    {
      var j := FindRun(u, lines, i);
      CollapseOne(u, lines, i, j, summary);
      shortened := shortened + Shorten(u, lines[i..j], summary);
      i := j;
    }
    CollapseNothing(u, summary);
    assert lines[i..] == [] && shortened + [] == shortened;
  }

  lemma CollapseNothing(u: Rules, summary: (nat, string) -> string)
    ensures Collapse(u, [], summary) == []
  {}

  /** A line is kept, or the first line of its run is. */
  lemma {:induction false} KeptOrRepeated(u: Rules, lines: seq<string>, summary: (nat, string) -> string, line: string)
    requires line in lines
    ensures line in Collapse(u, lines, summary)
      || exists first :: first in Collapse(u, lines, summary) && !u.blank(first) && Repeats(u, first, line)
    decreases |lines|
  {
    var n := 1 + RunOf(u, lines[0], lines[1..]);
    var run, rest := lines[..n], lines[n..];
    assert lines == run + rest;
    if line in rest {
      KeptOrRepeated(u, rest, summary, line);
    } else {
      var k :| 0 <= k < n && run[k] == line;
      assert run[0] in Shorten(u, run, summary);
      if k > 0 { assert line == lines[1..][k - 1]; }
    }
  }

  /** What collapsing may drop for a line it keeps has no error the kept line does not show. */
  ghost predicate NoneHidden(u: Rules) {
    forall a, b | !u.blank(a) && Repeats(u, a, b) && u.errorish(b) :: u.errorish(a)
  }

  predicate HasError(u: Rules, lines: seq<string>) { exists line :: line in lines && u.errorish(line) }

  ghost predicate ErrorsSurvive(u: Rules, summary: (nat, string) -> string) {
    forall lines :: HasError(u, lines) ==> HasError(u, Collapse(u, lines, summary))
  }

  /** An error-like line is then kept, or an error-like line that it repeats is. */
  lemma ErrorIsTraced(u: Rules, lines: seq<string>, summary: (nat, string) -> string, line: string)
    requires NoneHidden(u) && line in lines && u.errorish(line)
    ensures line in Collapse(u, lines, summary)
      || exists first :: first in Collapse(u, lines, summary) && u.errorish(first) && Repeats(u, first, line)
  {
    KeptOrRepeated(u, lines, summary, line);
  }

  /** One line between two copies of a line it counts as a repeat of. */
  lemma BetweenTwo(u: Rules, summary: (nat, string) -> string, a: string, b: string)
    requires !u.blank(a) && Repeats(u, a, b)
    ensures Collapse(u, [a, b, a], summary) == [a, summary(2, a)]
  {
    var lines := [a, b, a];
    assert lines[1..] == [b, a] && [b, a][1..] == [a] && [a][1..] == [];
    assert RunOf(u, a, [a]) == 1 && RunOf(u, a, [b, a]) == 2;
    assert lines[..3] == lines && lines[3..] == [];
    assert Collapse(u, lines, summary) == [a, summary(2, a)] + Collapse(u, [], summary);
  }

  /** Collapsing leaves an error of every log that has one exactly when no line shows less than a repeat of it does.
      Spinner frames repeat each other whatever their text, so a frame that reports an error breaks that. */
  lemma ErrorsSurviveExactly(u: Rules, summary: (nat, string) -> string)
    requires forall n: nat, last: string :: u.errorish(summary(n, last)) ==> u.errorish(last)
    ensures ErrorsSurvive(u, summary) <==> NoneHidden(u)
  {
    if NoneHidden(u) {
      forall lines | HasError(u, lines) ensures HasError(u, Collapse(u, lines, summary)) {
        var line :| line in lines && u.errorish(line);
        ErrorIsTraced(u, lines, summary, line);
      }
    }
    if ErrorsSurvive(u, summary) {
      forall a, b | !u.blank(a) && Repeats(u, a, b) && u.errorish(b) ensures u.errorish(a) {
        var lines := [a, b, a];
        assert lines[1] == b && HasError(u, lines);
        BetweenTwo(u, summary, a, b);
        var line :| line in Collapse(u, lines, summary) && u.errorish(line);
      }
    }
  }

  /** The runs of a log, in order. */
  function Runs(u: Rules, lines: seq<string>): (runs: seq<seq<string>>)
    ensures forall run | run in runs :: run != []
    ensures forall k | 0 <= k < |runs| :: runs[k] != []
    decreases |lines|
  {
    if lines == [] then []
    else
      var n := 1 + RunOf(u, lines[0], lines[1..]);
      [lines[..n]] + Runs(u, lines[n..])
  }

  function Concat(runs: seq<seq<string>>): seq<string> { if runs == [] then [] else runs[0] + Concat(runs[1..]) }

  /** Together they are the log, and the lines of each repeat its first, a spinner frame any other. */
  lemma {:induction false} RunsAreTheLog(u: Rules, lines: seq<string>)
    ensures Concat(Runs(u, lines)) == lines
    ensures forall run, k | run in Runs(u, lines) && 0 < k < |run| ::
      !u.blank(run[k]) && if u.spinner(run[0]) then u.spinner(run[k]) else u.key(run[k]) == u.key(run[0])
    decreases |lines|
  {
    if lines != [] {
      var n := 1 + RunOf(u, lines[0], lines[1..]);
      var run := lines[..n];
      RunsAreTheLog(u, lines[n..]);
      assert Runs(u, lines) == [run] + Runs(u, lines[n..]) && Runs(u, lines)[1..] == Runs(u, lines[n..]);
      assert lines == run + lines[n..];
      forall k | 0 < k < n ensures Repeats(u, run[0], run[k]) { assert run[k] == lines[1..][k - 1]; }
      hide Runs, RunOf;
    }
  }

  /** And a run goes on as long as the next line repeats its first. */
  lemma {:induction false} RunsAreWhole(u: Rules, lines: seq<string>, k: nat)
    requires 0 < k < |Runs(u, lines)|
    ensures var first, next := Runs(u, lines)[k - 1][0], Runs(u, lines)[k][0];
      u.blank(next) || if u.spinner(first) then !u.spinner(next) else u.key(next) != u.key(first)
    decreases |lines|
  {
    var n := 1 + RunOf(u, lines[0], lines[1..]);
    var rest := Runs(u, lines[n..]);
    assert Runs(u, lines) == [lines[..n]] + rest;
    if k > 1 {
      RunsAreWhole(u, lines[n..], k - 1);
    } else {
      RunEnds(u, lines[0], lines[1..]);
      assert rest[0][0] == lines[n] == lines[1..][n - 1];
    }
  }

  lemma {:induction false} RunEnds(u: Rules, first: string, lines: seq<string>)
    ensures var n := RunOf(u, first, lines); n < |lines| ==> !Repeats(u, first, lines[n])
  {
    if lines != [] && Repeats(u, first, lines[0]) { RunEnds(u, first, lines[1..]); }
  }

  /** What is left of one run: all of a run of one or two lines, or of blank ones; the first line and a summary of the
      others and the last line, of any longer one. */
  predicate Leaves(u: Rules, run: seq<string>, piece: seq<string>, summary: (nat, string) -> string)
    requires run != []
  {
    if |run| <= 2 || u.blank(run[0]) then piece == run
    else |piece| == 2 && piece[0] == run[0] && piece[1] == summary(|run| - 1, run[|run| - 1])
  }

  /** Collapsing leaves of a log what it leaves of its runs, one after the other. */
  lemma {:induction false} CollapsedExactly(u: Rules, lines: seq<string>, summary: (nat, string) -> string) returns (pieces: seq<seq<string>>)
    ensures Collapse(u, lines, summary) == Concat(pieces)
    ensures |pieces| == |Runs(u, lines)| && forall k | 0 <= k < |pieces| :: Leaves(u, Runs(u, lines)[k], pieces[k], summary)
    decreases |lines|
  {
    pieces := [];
    if lines != [] {
      var n := 1 + RunOf(u, lines[0], lines[1..]);
      var rest := CollapsedExactly(u, lines[n..], summary);
      pieces := [Shorten(u, lines[..n], summary)] + rest;
      assert pieces[1..] == rest;
    }
  }

  /** What a run leaves shows an error: any line of a short one, the first or the last line of a long one. */
  predicate Shows(u: Rules, run: seq<string>)
    requires run != []
  {
    if |run| > 2 && !u.blank(run[0]) then u.errorish(run[0]) || u.errorish(run[|run| - 1]) else HasError(u, run)
  }

  predicate SomeRunShows(u: Rules, runs: seq<seq<string>>)
    requires forall run | run in runs :: run != []
  {
    exists run :: run in runs && Shows(u, run)
  }

  lemma ErrorsOfTwo(u: Rules, a: seq<string>, b: seq<string>)
    ensures HasError(u, a + b) <==> HasError(u, a) || HasError(u, b)
  {
    assert forall line :: line in a + b <==> line in a || line in b;
  }

  lemma ShortenShows(u: Rules, run: seq<string>, summary: (nat, string) -> string)
    requires run != [] && forall n: nat, last: string :: u.errorish(summary(n, last)) <==> u.errorish(last)
    ensures HasError(u, Shorten(u, run, summary)) <==> Shows(u, run)
  {
    if |run| > 2 && !u.blank(run[0]) {
      var left := [run[0], summary(|run| - 1, run[|run| - 1])];
      assert left[0] in left && left[1] in left;
    }
  }

  lemma ShowsNext(u: Rules, run: seq<string>, runs: seq<seq<string>>)
    requires run != [] && forall r | r in runs :: r != []
    ensures SomeRunShows(u, [run] + runs) <==> Shows(u, run) || SomeRunShows(u, runs)
  {
    hide Shows;
    assert run in [run] + runs && forall r :: r in [run] + runs <==> r == run || r in runs;
  }

  /** For one log: an error is left exactly when a run of at most two lines has one, or a longer run begins or ends with
      one. */
  lemma {:induction false} ErrorIsLeftExactly(u: Rules, lines: seq<string>, summary: (nat, string) -> string)
    requires forall n: nat, last: string :: u.errorish(summary(n, last)) <==> u.errorish(last)
    ensures HasError(u, Collapse(u, lines, summary)) <==> SomeRunShows(u, Runs(u, lines))
    decreases |lines|
  {
    if lines != [] {
      var n := 1 + RunOf(u, lines[0], lines[1..]);
      var run, rest := lines[..n], lines[n..];
      hide Shows, HasError, Shorten;
      ErrorIsLeftExactly(u, rest, summary);
      ShowsNext(u, run, Runs(u, rest));
      ShortenShows(u, run, summary);
      ErrorsOfTwo(u, Shorten(u, run, summary), Collapse(u, rest, summary));
      assert Runs(u, lines) == [run] + Runs(u, rest);
    }
  }

  /** At an input: an error between two spinner frames without one. */
  lemma SpinnersHideAnError(u: Rules, summary: (nat, string) -> string, frame: string, error: string)
    requires u.spinner(frame) && u.spinner(error) && !u.blank(frame) && !u.blank(error)
    requires !u.errorish(frame) && u.errorish(error) && !u.errorish(summary(2, frame))
    ensures HasError(u, [frame, error, frame]) && !HasError(u, Collapse(u, [frame, error, frame], summary))
  {
    BetweenTwo(u, summary, frame, error);
    assert [frame, error, frame][1] == error;
  }

  // ---- segments --------------------------------------------------------------------------------

  /** Where a diagnostic box ends: after its first closing line, or with the log. */
  function BoxEnd(u: Rules, lines: seq<string>, j: nat): (e: nat)
    requires j <= |lines|
    ensures j <= e <= |lines| && (j < |lines| ==> j < e)
    decreases |lines| - j
  {
    if j == |lines| then j else if u.closes(lines[j]) then j + 1 else BoxEnd(u, lines, j + 1)
  }

  /** It ends right behind the first closing line, or with the log when no line closes it. */
  lemma {:induction false} BoxEndExactly(u: Rules, lines: seq<string>, j: nat)
    requires j < |lines|
    ensures var e := BoxEnd(u, lines, j);
      && (forall k | j <= k < e - 1 :: !u.closes(lines[k]))
      && (e < |lines| ==> u.closes(lines[e - 1]))
    decreases |lines| - j
  {
    if !u.closes(lines[j]) && j + 1 < |lines| { BoxEndExactly(u, lines, j + 1); }
  }

  /** Where a run of error-like lines ends: at a box, or at two lines in a row without an error. */
  function RunEnd(u: Rules, lines: seq<string>, j: nat): (e: nat)
    requires j <= |lines|
    ensures j <= e <= |lines|
    decreases |lines| - j
  {
    if j == |lines| || u.opens(lines[j]) then j
    else if u.errorish(lines[j]) then RunEnd(u, lines, j + 1)
    else if j + 1 < |lines| && u.errorish(lines[j + 1]) && !u.opens(lines[j + 1]) then RunEnd(u, lines, j + 2)
    else j
  }

  /** A stretch of the log, from `from` up to but not including `to`. */
  datatype Segment = Segment(from: nat, to: nat)

  function SegmentsFrom(u: Rules, lines: seq<string>, i: nat): seq<Segment>
    requires i <= |lines|
    decreases |lines| - i
  {
    if i == |lines| then []
    else if u.opens(lines[i]) then [Segment(i, BoxEnd(u, lines, i))] + SegmentsFrom(u, lines, BoxEnd(u, lines, i))
    else if u.errorish(lines[i]) then [Segment(i, RunEnd(u, lines, i + 1))] + SegmentsFrom(u, lines, RunEnd(u, lines, i + 1))
    else SegmentsFrom(u, lines, i + 1)
  }

  method FindBoxEnd(u: Rules, lines: seq<string>, i: nat) returns (to: nat)
    requires i < |lines|
    ensures to == BoxEnd(u, lines, i)
  {
    var j, n := i, |lines|;
    while j < n && !u.closes(lines[j])
      invariant i <= j <= n && BoxEnd(u, lines, i) == BoxEnd(u, lines, j)
    {
      j := j + 1;
    }
    to := if j + 1 < n then j + 1 else n;
  }

  method FindRunEnd(u: Rules, lines: seq<string>, i: nat) returns (j: nat)
    requires i < |lines|
    ensures j == RunEnd(u, lines, i + 1)
  {
    j := i + 1;
    var n := |lines|;
    while j < n && !u.opens(lines[j])
      invariant i < j <= n && RunEnd(u, lines, i + 1) == RunEnd(u, lines, j)
    {
      if u.errorish(lines[j]) {
        j := j + 1;
      } else if j + 1 < n && u.errorish(lines[j + 1]) && !u.opens(lines[j + 1]) {
        j := j + 2;
      } else {
        break;
      }
    }
  }

  method FindSegments(u: Rules, lines: seq<string>) returns (segments: seq<Segment>)
    ensures segments == SegmentsFrom(u, lines, 0)
  {
    segments := [];
    var i, n := 0, |lines|;
    while i < n
      invariant 0 <= i <= n
      invariant SegmentsFrom(u, lines, 0) == segments + SegmentsFrom(u, lines, i)
    {
      if u.opens(lines[i]) {
        var to := FindBoxEnd(u, lines, i);
        segments, i := segments + [Segment(i, to)], to;
      } else if u.errorish(lines[i]) {
        var to := FindRunEnd(u, lines, i);
        segments, i := segments + [Segment(i, to)], to;
      } else {
        i := i + 1;
      }
    }
  }

  predicate Covers(s: Segment, k: nat) { s.from <= k < s.to }

  predicate Notable(u: Rules, line: string) { u.errorish(line) || u.opens(line) }

  /** In order, without overlap, each beginning at a line worth reporting. */
  ghost predicate InOrder(u: Rules, lines: seq<string>, segments: seq<Segment>, i: nat) {
    && (forall a | 0 <= a < |segments| :: i <= segments[a].from < segments[a].to <= |lines| && Notable(u, lines[segments[a].from]))
    && (forall a, b | 0 <= a < b < |segments| :: segments[a].to <= segments[b].from)
  }

  predicate Covered(segments: seq<Segment>, k: nat) { exists a :: 0 <= a < |segments| && Covers(segments[a], k) }

  lemma CoveredNext(first: Segment, rest: seq<Segment>, k: nat)
    ensures Covered([first] + rest, k) <==> Covers(first, k) || Covered(rest, k)
  {
    var all := [first] + rest;
    if Covered(rest, k) {
      var a :| 0 <= a < |rest| && Covers(rest[a], k);
      assert all[a + 1] == rest[a];
    }
    if Covers(first, k) { assert all[0] == first; }
  }

  lemma InOrderNext(u: Rules, lines: seq<string>, first: Segment, rest: seq<Segment>)
    requires first.from < first.to <= |lines| && Notable(u, lines[first.from]) && InOrder(u, lines, rest, first.to)
    ensures InOrder(u, lines, [first] + rest, first.from)
  {}

  /** The segments come in order without overlap, and every line worth reporting is in one. */
  lemma {:induction false} SegmentsCover(u: Rules, lines: seq<string>, i: nat)
    requires i <= |lines|
    ensures InOrder(u, lines, SegmentsFrom(u, lines, i), i)
    ensures forall k | i <= k < |lines| && Notable(u, lines[k]) :: Covered(SegmentsFrom(u, lines, i), k)
    decreases |lines| - i
  {
    if i < |lines| {
      if !Notable(u, lines[i]) {
        SegmentsCover(u, lines, i + 1);
      } else {
        var first := Segment(i, if u.opens(lines[i]) then BoxEnd(u, lines, i) else RunEnd(u, lines, i + 1));
        var rest := SegmentsFrom(u, lines, first.to);
        SegmentsCover(u, lines, first.to);
        assert SegmentsFrom(u, lines, i) == [first] + rest;
        InOrderNext(u, lines, first, rest);
        forall k | i <= k < |lines| && Notable(u, lines[k]) ensures Covered([first] + rest, k) { CoveredNext(first, rest, k); }
      }
    }
  }

  /** How many segments a line is in. */
  function TimesCovered(segments: seq<Segment>, k: nat): nat {
    if segments == [] then 0 else (if Covers(segments[0], k) then 1 else 0) + TimesCovered(segments[1..], k)
  }

  lemma {:induction false} CoveredOnce(u: Rules, lines: seq<string>, segments: seq<Segment>, i: nat, k: nat)
    requires InOrder(u, lines, segments, i)
    ensures TimesCovered(segments, k) == if Covered(segments, k) then 1 else 0
    ensures k < i ==> !Covered(segments, k)
    decreases segments
  {
    if segments != [] {
      var first, rest := segments[0], segments[1..];
      assert segments == [first] + rest;
      assert InOrder(u, lines, rest, first.to) by { forall a | 0 <= a < |rest| ensures rest[a] == segments[a + 1] {} }
      CoveredOnce(u, lines, rest, first.to, k);
      CoveredNext(first, rest, k);
    }
  }

  /** Every error-like line and every box opening of the log is in exactly one segment. */
  lemma EveryErrorOnce(u: Rules, lines: seq<string>, k: nat)
    requires k < |lines| && Notable(u, lines[k])
    ensures TimesCovered(SegmentsFrom(u, lines, 0), k) == 1
  {
    hide SegmentsFrom, TimesCovered, Covered;
    SegmentsCover(u, lines, 0);
    CoveredOnce(u, lines, SegmentsFrom(u, lines, 0), 0, k);
  }

  /** A run's segment holds no box and no two lines in a row without an error, and ends with one. */
  lemma {:induction false} RunsAreTight(u: Rules, lines: seq<string>, j: nat)
    requires 0 < j <= |lines| && u.errorish(lines[j - 1])
    ensures var e := RunEnd(u, lines, j);
      && (forall k | j <= k < e :: !u.opens(lines[k]) && (u.errorish(lines[k]) || (k + 1 < e && u.errorish(lines[k + 1]))))
      && u.errorish(lines[e - 1])
    decreases |lines| - j
  {
    if j < |lines| && !u.opens(lines[j]) {
      if u.errorish(lines[j]) {
        RunsAreTight(u, lines, j + 1);
      } else if j + 1 < |lines| && u.errorish(lines[j + 1]) && !u.opens(lines[j + 1]) {
        RunsAreTight(u, lines, j + 2);
      }
    }
  }

  /** And it goes as far as it can: at the log's end, at a box, or where two lines in a row carry no error. */
  lemma {:induction false} RunsAreMaximal(u: Rules, lines: seq<string>, j: nat)
    requires j <= |lines|
    ensures var e := RunEnd(u, lines, j);
      e < |lines| && !u.opens(lines[e]) ==>
        !u.errorish(lines[e]) && (e + 1 == |lines| || !u.errorish(lines[e + 1]) || u.opens(lines[e + 1]))
    decreases |lines| - j
  {
    if j < |lines| && !u.opens(lines[j]) {
      if u.errorish(lines[j]) {
        RunsAreMaximal(u, lines, j + 1);
      } else if j + 1 < |lines| && u.errorish(lines[j + 1]) && !u.opens(lines[j + 1]) {
        RunsAreMaximal(u, lines, j + 2);
      }
    }
  }

  // ---- blocks ----------------------------------------------------------------------------------

  datatype Block = Block(rank: int, signature: Option<string>, text: string, lineStart: nat, count: nat)

  function JoinLines(lines: seq<string>): string {
    if lines == [] then "" else if |lines| == 1 then lines[0] else lines[0] + "\n" + JoinLines(lines[1..])
  }

  /** Lines are joined by newlines between them, and nowhere else. */
  lemma {:induction false} JoinedByNewlines(a: seq<string>, b: seq<string>)
    requires b != []
    ensures JoinLines([]) == "" && forall line :: JoinLines([line]) == line
    ensures JoinLines(a + b) == if a == [] then JoinLines(b) else JoinLines(a) + "\n" + JoinLines(b)
  {
    if a == [] {
      assert a + b == b;
    } else {
      JoinedByNewlines(a[1..], b);
      assert (a + b)[1..] == a[1..] + b;
      if |a| > 1 { assert a[0] + "\n" + (JoinLines(a[1..]) + "\n" + JoinLines(b)) == JoinLines(a) + "\n" + JoinLines(b); }
    }
  }

  /** The highest-ranked signature above 1 among the lines, the first of equals. */
  function Best(u: Rules, lines: seq<string>): (Option<string>, int) {
    if lines == [] then (None, 1)
    else
      var (sig, rank) := Best(u, lines[..|lines| - 1]);
      var s := u.signature(lines[|lines| - 1]);
      if s.Some? && s.value.rank > rank then (Some(s.value.id), s.value.rank) else (sig, rank)
  }

  predicate RankedAt(u: Rules, line: string, least: int) { u.signature(line).Some? && u.signature(line).value.rank >= least }

  /** The best is the first line's of those with the highest rank, when that is above 1, and else there is none. */
  lemma {:induction false} BestExactly(u: Rules, lines: seq<string>)
    ensures var (sig, rank) := Best(u, lines);
      && (forall line | line in lines :: !RankedAt(u, line, rank + 1))
      && if sig.None? then rank == 1
         else rank > 1 && exists k :: 0 <= k < |lines| && u.signature(lines[k]) == Some(Signature(sig.value, rank)) && forall j | 0 <= j < k :: !RankedAt(u, lines[j], rank)
  {
    if lines != [] {
      var n := |lines| - 1;
      BestExactly(u, lines[..n]);
      var (sig, rank) := Best(u, lines[..n]);
      assert lines == lines[..n] + [lines[n]];
      if RankedAt(u, lines[n], rank + 1) {
        forall j | 0 <= j < n ensures !RankedAt(u, lines[j], rank + 1) { assert lines[j] in lines[..n]; }
        assert u.signature(lines[n]) == Some(Signature(u.signature(lines[n]).value.id, u.signature(lines[n]).value.rank));
      } else if sig.Some? {
        var k :| 0 <= k < n && u.signature(lines[..n][k]) == Some(Signature(sig.value, rank)) && forall j | 0 <= j < k :: !RankedAt(u, lines[..n][j], rank);
        assert lines[k] == lines[..n][k];
        forall j | 0 <= j < k ensures !RankedAt(u, lines[j], rank) { assert lines[..n][j] == lines[j]; }
      }
    }
  }

  function TextOf(lines: seq<string>, s: Segment): string
    requires s.from <= s.to <= |lines|
  {
    JoinLines(lines[s.from..s.to])
  }

  ghost predicate WithinLog(lines: seq<string>, segments: seq<Segment>) {
    forall a | 0 <= a < |segments| :: segments[a].from <= segments[a].to <= |lines|
  }

  function Texts(lines: seq<string>, segments: seq<Segment>): (texts: seq<string>)
    requires forall a | 0 <= a < |segments| :: segments[a].from <= segments[a].to <= |lines|
    ensures |texts| == |segments| && forall a | 0 <= a < |texts| :: texts[a] == TextOf(lines, segments[a])
  {
    if segments == [] then [] else Texts(lines, segments[..|segments| - 1]) + [TextOf(lines, segments[|segments| - 1])]
  }

  /** One block a text, carrying how many segments have that text. */
  ghost predicate Merged(texts: seq<string>, blocks: seq<Block>) {
    && (forall a, b | 0 <= a < b < |blocks| :: blocks[a].text != blocks[b].text)
    && (forall a | 0 <= a < |blocks| :: blocks[a].count == multiset(texts)[blocks[a].text])
    && (forall t | t in texts :: HasText(blocks, t))
    && (forall a | 0 <= a < |blocks| :: blocks[a].text in texts)
  }

  method BestOf(u: Rules, lines: seq<string>) returns (sig: Option<string>, rank: int)
    ensures (sig, rank) == Best(u, lines)
  {
    sig, rank := None, 1;
    for k := 0 to |lines|
      invariant (sig, rank) == Best(u, lines[..k])
    {
      assert lines[..k + 1][..k] == lines[..k];
      var s := u.signature(lines[k]);
      if s.Some? && s.value.rank > rank { sig, rank := Some(s.value.id), s.value.rank; }
    }
    assert lines[..|lines|] == lines;
  }

  ghost predicate HasText(blocks: seq<Block>, t: string) { exists a :: 0 <= a < |blocks| && blocks[a].text == t }

  lemma CountedAgain(texts: seq<string>, blocks: seq<Block>, a: nat)
    requires Merged(texts, blocks) && a < |blocks|
    ensures Merged(texts + [blocks[a].text], blocks[a := blocks[a].(count := blocks[a].count + 1)])
  {
    var t, blocks' := blocks[a].text, blocks[a := blocks[a].(count := blocks[a].count + 1)];
    assert multiset(texts + [t]) == multiset(texts)[t := multiset(texts)[t] + 1];
    forall s | s in texts + [t] ensures HasText(blocks', s) {
      assert s in texts;
      var b :| 0 <= b < |blocks| && blocks[b].text == s;
      assert blocks'[b].text == s;
    }
  }

  lemma CountedFirst(texts: seq<string>, blocks: seq<Block>, block: Block)
    requires Merged(texts, blocks) && block.count == 1 && !HasText(blocks, block.text)
    ensures Merged(texts + [block.text], blocks + [block])
  {
    var t, blocks' := block.text, blocks + [block];
    assert t !in texts && multiset(texts + [t]) == multiset(texts)[t := multiset(texts)[t] + 1];
    forall s | s in texts + [t] ensures HasText(blocks', s) {
      if s in texts {
        var b :| 0 <= b < |blocks| && blocks[b].text == s;
        assert blocks'[b].text == s;
      } else {
        assert blocks'[|blocks|] == block;
      }
    }
  }

  /** The block's rank, signature, text and line are those of the first segment with its text. */
  ghost predicate ComesFrom(u: Rules, lines: seq<string>, segments: seq<Segment>, block: Block)
    requires WithinLog(lines, segments)
  {
    exists a: nat :: a < |segments| && IsBlockOf(u, lines, segments[a], block) && FirstWith(lines, segments, a)
  }

  lemma StillComesFrom(u: Rules, lines: seq<string>, segments: seq<Segment>, k: nat, block: Block, count: nat)
    requires WithinLog(lines, segments) && k < |segments| && ComesFrom(u, lines, segments[..k], block)
    ensures ComesFrom(u, lines, segments[..k + 1], block.(count := count))
  {
    var a: nat :| a < k && IsBlockOf(u, lines, segments[..k][a], block) && FirstWith(lines, segments[..k], a);
    var more := segments[..k + 1];
    assert more[a] == segments[..k][a];
    forall b | 0 <= b < a ensures TextOf(lines, more[b]) != TextOf(lines, more[a]) {
      assert more[b] == segments[..k][b];
    }
    assert IsBlockOf(u, lines, more[a], block.(count := count)) && FirstWith(lines, more, a);
  }

  lemma NewComesFrom(u: Rules, lines: seq<string>, segments: seq<Segment>, k: nat, block: Block)
    requires WithinLog(lines, segments) && k < |segments| && IsBlockOf(u, lines, segments[k], block)
    requires block.text !in Texts(lines, segments[..k])
    ensures ComesFrom(u, lines, segments[..k + 1], block)
  {
    var more, texts := segments[..k + 1], Texts(lines, segments[..k]);
    forall b | 0 <= b < k ensures TextOf(lines, more[b]) != TextOf(lines, more[k]) {
      assert texts[b] == TextOf(lines, more[b]) && texts[b] in texts;
    }
    assert IsBlockOf(u, lines, more[k], block) && FirstWith(lines, more, k);
  }

  lemma TextsNext(lines: seq<string>, segments: seq<Segment>, k: nat)
    requires WithinLog(lines, segments) && k < |segments|
    ensures Texts(lines, segments[..k + 1]) == Texts(lines, segments[..k]) + [TextOf(lines, segments[k])]
  {
    assert segments[..k + 1][..k] == segments[..k];
  }

  /** One more segment: counted on the block that has its text, or a block of its own. */
  method MergeOne(u: Rules, lines: seq<string>, segments: seq<Segment>, k: nat, blocks: seq<Block>) returns (after: seq<Block>)
    requires WithinLog(lines, segments) && k < |segments|
    requires Merged(Texts(lines, segments[..k]), blocks)
    requires AllComeFrom(u, lines, segments[..k], blocks)
    ensures Merged(Texts(lines, segments[..k + 1]), after)
    ensures AllComeFrom(u, lines, segments[..k + 1], after)
  {
    hide Merged, ComesFrom, Best, JoinLines, Texts, FirstWith;
    var text := TextOf(lines, segments[k]);
    ghost var texts := Texts(lines, segments[..k]);
    TextsNext(lines, segments, k);
    var a := 0;
    while a < |blocks| && blocks[a].text != text
      invariant 0 <= a <= |blocks| && forall b | 0 <= b < a :: blocks[b].text != text
    {
      a := a + 1;
    }
    if a < |blocks| {
      CountedAgain(texts, blocks, a);
      AgainComesFrom(u, lines, segments, k, blocks, a);
      after := blocks[a := blocks[a].(count := blocks[a].count + 1)];
    } else {
      var sig, rank := BestOf(u, lines[segments[k].from..segments[k].to]);
      var block := Block(rank, sig, text, segments[k].from + 1, 1);
      CountedFirst(texts, blocks, block);
      NotAmong(texts, blocks, text);
      NewComesFrom(u, lines, segments, k, block);
      AllStillComeFrom(u, lines, segments, k, blocks);
      after := blocks + [block];
    }
  }

  ghost predicate AllComeFrom(u: Rules, lines: seq<string>, segments: seq<Segment>, blocks: seq<Block>)
    requires WithinLog(lines, segments)
  {
    forall block | block in blocks :: ComesFrom(u, lines, segments, block)
  }

  lemma AllStillComeFrom(u: Rules, lines: seq<string>, segments: seq<Segment>, k: nat, blocks: seq<Block>)
    requires WithinLog(lines, segments) && k < |segments| && AllComeFrom(u, lines, segments[..k], blocks)
    ensures AllComeFrom(u, lines, segments[..k + 1], blocks)
  {
    hide ComesFrom;
    forall block | block in blocks ensures ComesFrom(u, lines, segments[..k + 1], block) {
      StillComesFrom(u, lines, segments, k, block, block.count);
    }
  }

  lemma AgainComesFrom(u: Rules, lines: seq<string>, segments: seq<Segment>, k: nat, blocks: seq<Block>, a: nat)
    requires WithinLog(lines, segments) && k < |segments| && a < |blocks| && AllComeFrom(u, lines, segments[..k], blocks)
    ensures AllComeFrom(u, lines, segments[..k + 1], blocks[a := blocks[a].(count := blocks[a].count + 1)])
  {
    hide ComesFrom;
    var after := blocks[a := blocks[a].(count := blocks[a].count + 1)];
    forall block | block in after ensures ComesFrom(u, lines, segments[..k + 1], block) {
      var b :| 0 <= b < |after| && after[b] == block;
      StillComesFrom(u, lines, segments, k, blocks[b], block.count);
    }
  }

  lemma NotAmong(texts: seq<string>, blocks: seq<Block>, t: string)
    requires Merged(texts, blocks) && !HasText(blocks, t)
    ensures t !in texts
  {}

  /** Equal segments become one block with their number, in the order they first appear. */
  method MergeSegments(u: Rules, lines: seq<string>, segments: seq<Segment>) returns (blocks: seq<Block>)
    requires WithinLog(lines, segments)
    ensures Merged(Texts(lines, segments), blocks)
    ensures AllComeFrom(u, lines, segments, blocks)
  {
    blocks := [];
    for k := 0 to |segments|
      invariant Merged(Texts(lines, segments[..k]), blocks)
      invariant AllComeFrom(u, lines, segments[..k], blocks)
    {
      blocks := MergeOne(u, lines, segments, k, blocks);
    }
    assert segments[..|segments|] == segments;
  }

  /** No earlier segment has the same text. */
  ghost predicate FirstWith(lines: seq<string>, segments: seq<Segment>, a: nat)
    requires a < |segments| && WithinLog(lines, segments)
  {
    forall b | 0 <= b < a :: TextOf(lines, segments[b]) != TextOf(lines, segments[a])
  }

  ghost predicate IsBlockOf(u: Rules, lines: seq<string>, s: Segment, block: Block)
    requires s.from <= s.to <= |lines|
  {
    && block.text == TextOf(lines, s) && block.lineStart == s.from + 1
    && (block.signature, block.rank) == Best(u, lines[s.from..s.to])
  }

  function TotalCount(blocks: seq<Block>): nat {
    if blocks == [] then 0 else TotalCount(blocks[..|blocks| - 1]) + blocks[|blocks| - 1].count
  }

  lemma FirstIsIn(texts: seq<string>)
    requires texts != []
    ensures texts[0] in texts
  {}

  /** Leaving out the last block and the texts it stands for. */
  lemma MergedWithout(texts: seq<string>, front: seq<Block>, last: Block)
    requires Merged(texts, front + [last])
    ensures Merged(Without(texts, last.text), front) && |Without(texts, last.text)| == |texts| - last.count
  {
    var rest, blocks := Without(texts, last.text), front + [last];
    assert forall a | 0 <= a < |front| :: blocks[a] == front[a];
    assert blocks[|front|] == last;
    WithoutLength(texts, last.text);
    forall a | 0 <= a < |front| ensures front[a].count == multiset(rest)[front[a].text] && front[a].text in rest {
      WithoutCount(texts, last.text, front[a].text);
      assert blocks[a].text in multiset(texts);
    }
    forall t | t in rest ensures HasText(front, t) {
      WithoutCount(texts, last.text, t);
      assert t in multiset(rest) && t in texts;
      var a :| 0 <= a < |blocks| && blocks[a].text == t;
      assert front[a].text == t;
    }
  }

  /** No segment is lost or counted twice: the counts add up to the number of segments. */
  lemma {:induction false} CountsAddUp(texts: seq<string>, blocks: seq<Block>)
    requires Merged(texts, blocks)
    ensures TotalCount(blocks) == |texts|
    decreases blocks
  {
    if blocks == [] {
      if texts != [] {
        FirstIsIn(texts);
        assert false;
      }
    } else {
      var front, last := blocks[..|blocks| - 1], blocks[|blocks| - 1];
      assert blocks == front + [last];
      MergedWithout(texts, front, last);
      CountsAddUp(Without(texts, last.text), front);
    }
  }

  function Without(texts: seq<string>, t: string): seq<string> {
    if texts == [] then []
    else Without(texts[..|texts| - 1], t) + (if texts[|texts| - 1] == t then [] else [texts[|texts| - 1]])
  }

  lemma {:induction false} WithoutCount(texts: seq<string>, t: string, s: string)
    ensures multiset(Without(texts, t))[s] == if s == t then 0 else multiset(texts)[s]
  {
    if texts != [] {
      var n := |texts| - 1;
      WithoutCount(texts[..n], t, s);
      assert texts == texts[..n] + [texts[n]];
    }
  }

  lemma {:induction false} WithoutLength(texts: seq<string>, t: string)
    ensures |Without(texts, t)| == |texts| - multiset(texts)[t]
  {
    if texts != [] {
      var n := |texts| - 1;
      WithoutLength(texts[..n], t);
      assert texts == texts[..n] + [texts[n]];
    }
  }

  // ---- the most operative first ------------------------------------------------------------------

  /** Whether a may stand before b: higher rank first, then the generic exit code last, then log order. */
  predicate Before(a: Block, b: Block, generic: string) {
    || a.rank > b.rank
    || (a.rank == b.rank && a.signature != Some(generic) && b.signature == Some(generic))
    || (a.rank == b.rank && (a.signature == Some(generic) <==> b.signature == Some(generic)) && a.lineStart <= b.lineStart)
  }

  ghost predicate Ranked(blocks: seq<Block>, generic: string) {
    forall i, j | 0 <= i < j < |blocks| :: Before(blocks[i], blocks[j], generic)
  }

  function Place(ranked: seq<Block>, b: Block, generic: string): (r: seq<Block>)
    ensures multiset(r) == multiset(ranked) + multiset{b}
  {
    var n := |ranked| - 1;
    if ranked == [] || Before(ranked[n], b, generic) then ranked + [b]
    else
      assert ranked == ranked[..n] + [ranked[n]];
      Place(ranked[..n], b, generic) + [ranked[n]]
  }

  function Rank(blocks: seq<Block>, generic: string): (r: seq<Block>)
    ensures multiset(r) == multiset(blocks)
  {
    if blocks == [] then []
    else
      assert blocks == blocks[..|blocks| - 1] + [blocks[|blocks| - 1]];
      Place(Rank(blocks[..|blocks| - 1], generic), blocks[|blocks| - 1], generic)
  }

  lemma {:induction false} PlaceRanks(ranked: seq<Block>, b: Block, generic: string)
    requires Ranked(ranked, generic)
    ensures Ranked(Place(ranked, b, generic), generic)
  {
    if ranked != [] {
      var n := |ranked| - 1;
      if Before(ranked[n], b, generic) {
        forall i | 0 <= i < n ensures Before(ranked[i], b, generic) { assert Before(ranked[i], ranked[n], generic); }
      } else {
        PlaceRanks(ranked[..n], b, generic);
        var r := Place(ranked[..n], b, generic);
        forall i | 0 <= i < |r| ensures Before(r[i], ranked[n], generic) {
          assert r[i] in multiset(r);
          if r[i] != b { var k :| 0 <= k < n && ranked[..n][k] == r[i]; }
        }
      }
    }
  }

  lemma {:induction false} RankRanks(blocks: seq<Block>, generic: string)
    ensures Ranked(Rank(blocks, generic), generic)
  {
    if blocks != [] {
      RankRanks(blocks[..|blocks| - 1], generic);
      PlaceRanks(Rank(blocks[..|blocks| - 1], generic), blocks[|blocks| - 1], generic);
    }
  }

  lemma RankedMeans(blocks: seq<Block>, generic: string)
    requires Ranked(blocks, generic)
    ensures forall i, j | 0 <= i < j < |blocks| :: blocks[i].rank >= blocks[j].rank
    ensures forall i, j | 0 <= i < j < |blocks| && blocks[i].rank == blocks[j].rank ::
      if blocks[i].signature == Some(generic) then blocks[j].signature == Some(generic) && blocks[i].lineStart <= blocks[j].lineStart
      else blocks[j].signature == Some(generic) || blocks[i].lineStart <= blocks[j].lineStart
  {}

  lemma Twice(blocks: seq<Block>, i: nat, j: nat)
    requires i < j < |blocks| && blocks[i] == blocks[j]
    ensures multiset(blocks)[blocks[i]] >= 2
  {
    assert blocks == blocks[..j] + blocks[j..];
    assert blocks[..j][i] in multiset(blocks[..j]) && blocks[j..][0] in multiset(blocks[j..]);
  }

  lemma {:induction false} AtMostOnce(blocks: seq<Block>, b: Block)
    requires forall x, y | 0 <= x < y < |blocks| :: blocks[x] != blocks[y]
    ensures multiset(blocks)[b] <= 1
  {
    if blocks != [] {
      var n := |blocks| - 1;
      AtMostOnce(blocks[..n], b);
      assert blocks == blocks[..n] + [blocks[n]];
      if b == blocks[n] { assert b !in blocks[..n]; }
    }
  }

  /** Reordering keeps what merging established. */
  lemma ReorderedIsMerged(texts: seq<string>, blocks: seq<Block>, r: seq<Block>)
    requires Merged(texts, blocks) && multiset(r) == multiset(blocks)
    ensures Merged(texts, r)
  {
    forall a | 0 <= a < |r| ensures r[a] in blocks { assert r[a] in multiset(r); }
    forall a, b | 0 <= a < b < |r| ensures r[a].text != r[b].text {
      if r[a].text == r[b].text {
        assert r[a] == r[b];
        Twice(r, a, b);
        AtMostOnce(blocks, r[a]);
        assert false;
      }
    }
    forall t | t in texts ensures HasText(r, t) {
      var a :| 0 <= a < |blocks| && blocks[a].text == t;
      assert blocks[a] in multiset(r);
      var b :| 0 <= b < |r| && r[b] == blocks[a];
    }
  }

  lemma ReorderedComeFrom(u: Rules, lines: seq<string>, segments: seq<Segment>, blocks: seq<Block>, r: seq<Block>)
    requires WithinLog(lines, segments) && AllComeFrom(u, lines, segments, blocks) && multiset(r) == multiset(blocks)
    ensures AllComeFrom(u, lines, segments, r)
  {
    hide ComesFrom;
    forall block | block in r ensures block in blocks { assert block in multiset(r); }
  }

  /** All error blocks of a collapsed log: ranked, each with how often it occurs and with its first segment's rank,
      signature and line, together accounting for every segment. */
  method ErrorBlocks(u: Rules, lines: seq<string>, generic: string) returns (blocks: seq<Block>)
    ensures forall i, j | 0 <= i < j < |blocks| :: blocks[i].rank >= blocks[j].rank
    ensures forall i, j | 0 <= i < j < |blocks| && blocks[i].rank == blocks[j].rank ::
      if blocks[i].signature == Some(generic) then blocks[j].signature == Some(generic) && blocks[i].lineStart <= blocks[j].lineStart
      else blocks[j].signature == Some(generic) || blocks[i].lineStart <= blocks[j].lineStart
    ensures var segments := SegmentsFrom(u, lines, 0);
      && WithinLog(lines, segments) && Merged(Texts(lines, segments), blocks) && TotalCount(blocks) == |segments|
      && AllComeFrom(u, lines, segments, blocks)
  {
    hide ComesFrom, Merged, Ranked, Before;
    var segments := FindSegments(u, lines);
    SegmentsCover(u, lines, 0);
    var merged := MergeSegments(u, lines, segments);
    blocks := Rank(merged, generic);
    RankRanks(merged, generic);
    RankedMeans(blocks, generic);
    ReorderedIsMerged(Texts(lines, segments), merged, blocks);
    ReorderedComeFrom(u, lines, segments, merged, blocks);
    CountsAddUp(Texts(lines, segments), blocks);
  }

  /** The line lies in a segment whose text a block carries. */
  ghost predicate InABlock(lines: seq<string>, segments: seq<Segment>, blocks: seq<Block>, k: nat)
    requires WithinLog(lines, segments)
  {
    exists a :: 0 <= a < |segments| && Covers(segments[a], k) && HasText(blocks, TextOf(lines, segments[a]))
  }

  lemma CoveredIsInABlock(lines: seq<string>, segments: seq<Segment>, blocks: seq<Block>, k: nat)
    requires WithinLog(lines, segments) && Merged(Texts(lines, segments), blocks) && Covered(segments, k)
    ensures InABlock(lines, segments, blocks, k)
  {
    hide HasText, TextOf;
    var a :| 0 <= a < |segments| && Covers(segments[a], k);
    var texts := Texts(lines, segments);
    assert texts[a] in texts && HasText(blocks, texts[a]);
  }

  /** Every error-like line and every box opening is in the text of a block. */
  lemma EveryErrorInABlock(u: Rules, lines: seq<string>, blocks: seq<Block>, k: nat)
    requires WithinLog(lines, SegmentsFrom(u, lines, 0)) && Merged(Texts(lines, SegmentsFrom(u, lines, 0)), blocks)
    requires k < |lines| && Notable(u, lines[k])
    ensures InABlock(lines, SegmentsFrom(u, lines, 0), blocks, k)
  {
    hide SegmentsFrom, Merged, Texts, Covered;
    SegmentsCover(u, lines, 0);
    CoveredIsInABlock(lines, SegmentsFrom(u, lines, 0), blocks, k);
  }

  // ---- rendering -------------------------------------------------------------------------------

  const MARKER := "\n[...truncated]"

  function Chunk(b: Block, head: Block -> string): string { head(b) + b.text + "\n" }

  function Whole(blocks: seq<Block>, head: Block -> string): string {
    if blocks == [] then "" else Whole(blocks[..|blocks| - 1], head) + Chunk(blocks[|blocks| - 1], head)
  }

  lemma {:induction false} WholeGrows(blocks: seq<Block>, n: nat, head: Block -> string)
    requires n <= |blocks|
    ensures |Whole(blocks[..n], head)| <= |Whole(blocks, head)|
    decreases |blocks|
  {
    if n < |blocks| {
      WholeGrows(blocks[..|blocks| - 1], n, head);
      assert blocks[..|blocks| - 1][..n] == blocks[..n];
    } else {
      assert blocks[..n] == blocks;
    }
  }

  /** Every block is written out, behind its head and with a newline, after those before it and ahead of those behind. */
  lemma {:induction false} EveryBlockIsWritten(blocks: seq<Block>, k: nat, head: Block -> string)
    requires k < |blocks|
    ensures exists behind :: Whole(blocks, head) == Whole(blocks[..k], head) + (head(blocks[k]) + blocks[k].text + "\n") + behind
    decreases |blocks|
  {
    var n := |blocks| - 1;
    if k == n {
      assert Whole(blocks, head) == Whole(blocks[..k], head) + (head(blocks[k]) + blocks[k].text + "\n") + "";
    } else {
      EveryBlockIsWritten(blocks[..n], k, head);
      var front, written := Whole(blocks[..k], head), head(blocks[k]) + blocks[k].text + "\n";
      assert blocks[..n][..k] == blocks[..k] && blocks[..n][k] == blocks[k];
      var behind :| Whole(blocks[..n], head) == front + written + behind;
      assert front + written + behind + Chunk(blocks[n], head) == front + written + (behind + Chunk(blocks[n], head));
    }
  }

  /** The first n blocks whole, the next one no longer fits, and as much of it as is worth showing, marked as cut. */
  ghost predicate IsCutAt(blocks: seq<Block>, budget: int, head: Block -> string, n: int, text: string) {
    && 0 <= n < |blocks| && |Whole(blocks[..n + 1], head)| > budget
    && var whole, chunk := Whole(blocks[..n], head), Chunk(blocks[n], head);
      var room := budget - |whole|;
      && room < |chunk|
      && text == whole + if room > |head(blocks[n])| + |MARKER| + 20 then chunk[..room - |MARKER|] + MARKER else ""
  }

  /** The text fits the budget, is cut exactly when the blocks together do not fit, and otherwise holds every block in
      full; when cut, it still begins with as many whole blocks as fit. */
  method RenderBudgeted(blocks: seq<Block>, budget: int, head: Block -> string) returns (text: string, truncated: bool)
    ensures |text| <= if budget < 0 then 0 else budget
    ensures truncated <==> blocks != [] && |Whole(blocks, head)| > budget
    ensures !truncated ==> text == Whole(blocks, head)
    ensures truncated ==> exists n :: IsCutAt(blocks, budget, head, n, text)
  {
    text, truncated := "", false;
    for k := 0 to |blocks|
      invariant text == Whole(blocks[..k], head) && !truncated && (|text| <= budget || k == 0)
    {
      assert blocks[..k + 1][..k] == blocks[..k];
      var chunk, room := Chunk(blocks[k], head), budget - |text|;
      if |chunk| <= room {
        text := text + chunk;
        continue;
      }
      truncated := true;
      WholeGrows(blocks, k + 1, head);
      ghost var before := text;
      if room > |head(blocks[k])| + |MARKER| + 20 { text := text + (chunk[..room - |MARKER|] + MARKER); }
      assert before + "" == before;
      assert IsCutAt(blocks, budget, head, k, text);
      return;
    }
    assert blocks[..|blocks|] == blocks;
  }
}
