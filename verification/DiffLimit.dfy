/** The one input the parser neither reads nor refuses: a hunk header with a start the interpreter will not turn into a
    number. Which texts get there is said without the parser's own error. */
module DiffLimit {
  import opened Wrappers
  import opened Diffs
  import opened DiffParse
  import opened DiffPrint

  /** A header that could stand in for any other. */
  const PLAIN := "@@ -0 +0 @@"

  predicate LongHeader(line: string) { HunkHeader(line).Some? && !Short(HunkHeader(line).value) }

  predicate BodyLines(body: seq<string>) { forall line | line in body :: !EndsBody(line) }

  /** Nothing of a hunk's body: the end, or a line that ends one. */
  predicate BodyOver(lines: seq<string>) { lines == [] || EndsBody(lines[0]) }

  /** A header too long to read at line `k`, with its body up to before line `n`. */
  predicate LongAt(lines: seq<string>, k: nat, n: nat) {
    k < n <= |lines| && LongHeader(lines[k]) && BodyLines(lines[k + 1..n]) && BodyOver(lines[n..])
  }

  /** The lines up to the end of that hunk, with a plain header in its place. */
  function Cut(lines: seq<string>, k: nat, n: nat): seq<string>
    requires k < n <= |lines|
  {
    lines[..k] + ([PLAIN] + lines[k + 1..n])
  }

  /** But for that one header, the lines up to the end of its hunk are a diff. */
  predicate ReachesAt(lines: seq<string>, k: nat, n: nat) { LongAt(lines, k, n) && ParseFiles(Cut(lines, k, n)).Ok? }

  ghost predicate Reaches(lines: seq<string>) { exists k: nat, n: nat :: ReachesAt(lines, k, n) }

  // ---- one line, one body ----------------------------------------------------------------------

  /** A header without counts. */
  lemma BareHeader(from: string, to: string)
    requires AllDigits(from) && from != "" && AllDigits(to) && to != ""
    ensures HunkHeader("@@ -" + (from + (" +" + (to + " @@")))) == Some((from, to))
  {
    var newSide := to + " @@";
    var oldSide := from + (" +" + newSide);
    SkipPrefix("@@ -", oldSide);
    BareRange(from, " +" + newSide);
    SkipPrefix(" +", newSide);
    BareRange(to, " @@");
  }

  lemma BareRange(digits: string, rest: string)
    requires AllDigits(digits) && digits != "" && rest != "" && rest[0] == ' '
    ensures Range(digits + rest) == Some((digits, rest))
  {
    DigitCountPrefix(digits, rest);
    assert (digits + rest)[..|digits|] == digits && (digits + rest)[|digits|..] == rest;
  }

  lemma PlainHeader()
    ensures HunkHeader(PLAIN) == Some(("0", "0")) && StartsWith(PLAIN, "@@") && EndsBody(PLAIN)
    ensures !StartsWith(PLAIN, "--- ") && !StartsWith(PLAIN, "+++ ") && !Ignored(PLAIN) && !IsBlank(PLAIN)
  {
    hide HunkHeader;
    BareHeader("0", "0");
    assert "@@ -" + ("0" + (" +" + ("0" + " @@"))) == PLAIN;
    assert PLAIN[0] == '@' && !IsSpace(PLAIN[0]);
  }

  lemma HeaderStarts(line: string)
    requires HunkHeader(line).Some?
    ensures StartsWith(line, "@@") && EndsBody(line)
  {
    assert "@@ -" <= line && line[..2] == "@@";
  }

  /** How many lines a body has. */
  function BodySize(lines: seq<string>): (n: nat)
    ensures n <= |lines| && BodyLines(lines[..n]) && BodyOver(lines[n..])
  {
    if lines == [] || EndsBody(lines[0]) then 0
    else
      var n := BodySize(lines[1..]);
      assert lines[..n + 1] == [lines[0]] + lines[1..][..n] && lines[n + 1..] == lines[1..][n..];
      n + 1
  }

  /** A body is read from its own lines only. */
  lemma {:induction false} BodyAlone(body: seq<string>, rest: seq<string>)
    requires BodyLines(body) && BodyOver(rest)
    ensures match ParseBody(body)
      case Err(e) => e == NotADiffLine && ParseBody(body + rest) == Err(e)
      case Ok((b, left)) => left == [] && ParseBody(body + rest) == Ok((b, rest))
  {
    if body == [] {
      assert body + rest == rest;
    } else {
      assert (body + rest)[1..] == body[1..] + rest && body[0] in body;
      BodyAlone(body[1..], rest);
    }
  }

  /** One header, its body and the lines behind it. */
  lemma HunkAhead(header: string, body: seq<string>, rest: seq<string>)
    requires BodyLines(body) && BodyOver(rest) && HunkHeader(header).Some?
    ensures var m := HunkHeader(header).value;
      ParseHunks([header] + body + rest) ==
        if ParseBody(body).Err? then Err(NotADiffLine)
        else if !Short(m) then Err(NumberTooLong)
        else Ahead([Hunk(Value(m.0), Value(m.1), ParseBody(body).value.0)], ParseHunks(rest))
  {
    hide HunkHeader, Value, Short, BodyLines, EndsBody, ParseBody;
    var lines := [header] + body + rest;
    HeaderStarts(header);
    BodyAlone(body, rest);
    assert lines[0] == header && lines[1..] == body + rest;
  }

  /** The same, when the lines are not taken apart yet. */
  lemma HunkSplits(lines: seq<string>)
    requires lines != [] && HunkHeader(lines[0]).Some?
    ensures var n := BodySize(lines[1..]);
      n < |lines| && BodyLines(lines[1..n + 1]) && BodyOver(lines[n + 1..]) && lines == [lines[0]] + lines[1..n + 1] + lines[n + 1..]
  {
    var n := BodySize(lines[1..]);
    assert lines[1..][..n] == lines[1..n + 1] && lines[1..][n..] == lines[n + 1..];
  }

  lemma HunkThere(lines: seq<string>)
    requires lines != [] && StartsWith(lines[0], "@@") && ParseHunks(lines).Ok?
    ensures HunkHeader(lines[0]).Some?
  {}

  lemma NoHunkThere(lines: seq<string>)
    requires lines == [] || !StartsWith(lines[0], "@@")
    ensures ParseHunks(lines) == Ok(([], lines))
  {}

  // ---- one file ----------------------------------------------------------------------------------

  predicate FileHeader(lines: seq<string>) {
    && |lines| > 1 && StartsWith(lines[0], "--- ") && StartsWith(lines[1], "+++ ")
    && (HeaderPath(lines[0][4..]).Some? || HeaderPath(lines[1][4..]).Some?)
  }

  predicate Passed(line: string) { !StartsWith(line, "--- ") && (Ignored(line) || IsBlank(line)) }

  lemma FileAhead(lines: seq<string>)
    requires FileHeader(lines)
    ensures match ParseHunks(lines[2..])
      case Err(e) => ParseFiles(lines) == Err(e)
      case Ok((hunks, rest)) =>
        if hunks == [] then ParseFiles(lines) == Err(NoHunk)
        else
          && |rest| < |lines|
          && ParseFiles(lines) == AheadAll([FileDiff(HeaderPath(lines[0][4..]), HeaderPath(lines[1][4..]), hunks)], ParseFiles(rest))
  {
    HunksShrink(lines[2..]);
  }

  lemma PassedAhead(lines: seq<string>)
    requires lines != [] && Passed(lines[0])
    ensures ParseFiles(lines) == ParseFiles(lines[1..])
  {}

  lemma NothingElse(lines: seq<string>)
    requires lines != [] && !FileHeader(lines) && !Passed(lines[0])
    ensures ParseFiles(lines).Err? && ParseFiles(lines) != Err(NumberTooLong)
  {}

  // ---- a long header that is reached -------------------------------------------------------------

  /** A long header with its body, and what follows. */
  predicate Long(header: string, body: seq<string>, rest: seq<string>) { LongHeader(header) && BodyLines(body) && BodyOver(rest) }

  /** The hunks end before the header, at line `m`, whatever stands there. */
  predicate Stops(front: seq<string>, cut: seq<string>, whole: seq<string>, m: nat) {
    && m < |front| && ParseHunks(front + cut).Ok? && ParseHunks(front + cut).value.1 == front[m..] + cut
    && ParseHunks(front + whole) == Ok((ParseHunks(front + cut).value.0, front[m..] + whole))
  }

  lemma ReachedAtOnce(header: string, body: seq<string>, rest: seq<string>)
    requires Long(header, body, rest) && ParseHunks([PLAIN] + body).Ok?
    ensures ParseHunks([header] + body + rest) == Err(NumberTooLong)
  {
    hide ParseHunks, HunkHeader, ParseBody;
    PlainHeader();
    assert [PLAIN] + body == [PLAIN] + body + [];
    HunkAhead(PLAIN, body, []);
    HunkAhead(header, body, rest);
  }

  lemma Regroup(a: seq<string>, b: seq<string>, c: seq<string>)
    ensures a + b + c == a + (b + c)
  {}

  /** Past one hunk in front of it. */
  lemma OneHunkOn(front: seq<string>, n: nat, other: seq<string>)
    requires front != [] && HunkHeader(front[0]).Some? && n == BodySize(front[1..]) && other != [] && EndsBody(other[0])
    ensures n < |front|
    ensures var m := HunkHeader(front[0]).value; var body := ParseBody(front[1..n + 1]);
      ParseHunks(front + other) ==
        if body.Err? then Err(NotADiffLine)
        else if !Short(m) then Err(NumberTooLong)
        else Ahead([Hunk(Value(m.0), Value(m.1), body.value.0)], ParseHunks(front[n + 1..] + other))
  {
    hide ParseHunks, HunkHeader, ParseBody, BodySize, Value, Short, BodyLines, EndsBody;
    HunkSplits(front);
    var body, more := front[1..n + 1], front[n + 1..];
    var rest := more + other;
    assert rest[0] == if more == [] then other[0] else more[0];
    Regroup([front[0]] + body, more, other);
    HunkAhead(front[0], body, rest);
  }

  lemma StopsLater(front: seq<string>, n: nat, cut: seq<string>, whole: seq<string>, m: nat)
    requires n < |front| && Stops(front[n + 1..], cut, whole, m)
    requires ParseHunks(front + cut).Ok? && exists h :: Behind(h, front, n, cut, whole)
    ensures Stops(front, cut, whole, n + 1 + m)
  {
    var h :| Behind(h, front, n, cut, whole);
    assert front[n + 1..][m..] == front[n + 1 + m..];
  }

  predicate Behind(h: Hunk, front: seq<string>, n: nat, cut: seq<string>, whole: seq<string>)
    requires n < |front|
  {
    && ParseHunks(front + cut) == Ahead([h], ParseHunks(front[n + 1..] + cut))
    && ParseHunks(front + whole) == Ahead([h], ParseHunks(front[n + 1..] + whole))
  }

  ghost predicate ReachedOrStops(front: seq<string>, cut: seq<string>, whole: seq<string>) {
    ParseHunks(front + whole) == Err(NumberTooLong) || exists m: nat :: Stops(front, cut, whole, m)
  }

  lemma {:induction false} HunksReach(front: seq<string>, header: string, body: seq<string>, rest: seq<string>)
    requires Long(header, body, rest) && ParseHunks(front + ([PLAIN] + body)).Ok?
    ensures ReachedOrStops(front, [PLAIN] + body, [header] + body + rest)
    decreases |front|
  {
    hide ParseHunks, HunkHeader, ParseBody, BodySize, Value, Short, BodyLines, BodyOver;
    var cut, whole := [PLAIN] + body, [header] + body + rest;
    PlainHeader();
    HeaderStarts(header);
    if front == [] {
      assert front + cut == cut && front + whole == whole;
      ReachedAtOnce(header, body, rest);
    } else if !StartsWith(front[0], "@@") {
      NoHunkThere(front + cut);
      NoHunkThere(front + whole);
      assert front[0..] == front;
      assert Stops(front, cut, whole, 0);
    } else {
      HunkThere(front + cut);
      var n := BodySize(front[1..]);
      OneHunkOn(front, n, cut);
      OneHunkOn(front, n, whole);
      var m := HunkHeader(front[0]).value;
      assert Behind(Hunk(Value(m.0), Value(m.1), ParseBody(front[1..n + 1]).value.0), front, n, cut, whole);
      var more := front[n + 1..];
      HunksReach(more, header, body, rest);
      if at: nat :| Stops(more, cut, whole, at) { StopsLater(front, n, cut, whole, at); }
    }
  }

  lemma {:induction false} FilesReach(front: seq<string>, header: string, body: seq<string>, rest: seq<string>)
    requires Long(header, body, rest) && ParseFiles(front + ([PLAIN] + body)).Ok?
    ensures ParseFiles(front + ([header] + body + rest)) == Err(NumberTooLong)
    decreases |front|
  {
    hide ParseFiles, ParseHunks, HunkHeader, Ignored, IsBlank, LongHeader, BodyLines, BodyOver, HeaderPath;
    var cut, whole := [PLAIN] + body, [header] + body + rest;
    PlainHeader();
    assert cut[0] == PLAIN;
    if front == [] {
      assert front + cut == cut;
      NothingElse(cut);
      assert false;
    } else if FileHeader(front + cut) {
      assert |front| > 1 && (front + cut)[2..] == front[2..] + cut && (front + whole)[2..] == front[2..] + whole;
      FileAhead(front + cut);
      FileAhead(front + whole);
      HunksReach(front[2..], header, body, rest);
      if m: nat :| Stops(front[2..], cut, whole, m) { FilesReach(front[2..][m..], header, body, rest); }
    } else if Passed(front[0]) {
      assert (front + cut)[1..] == front[1..] + cut && (front + whole)[1..] == front[1..] + whole;
      PassedAhead(front + cut);
      PassedAhead(front + whole);
      FilesReach(front[1..], header, body, rest);
    } else {
      NothingElse(front + cut);
      assert false;
    }
  }

  // ---- the header that stopped the parser --------------------------------------------------------

  lemma CutBehind(front: seq<string>, lines: seq<string>, k: nat, n: nat)
    requires LongAt(lines, k, n)
    ensures LongAt(front + lines, |front| + k, |front| + n)
    ensures Cut(front + lines, |front| + k, |front| + n) == front + Cut(lines, k, n)
  {
    hide LongHeader, BodyLines, BodyOver;
    var all, d := front + lines, |front|;
    Regroup(front, lines[..k], [PLAIN] + lines[k + 1..n]);
    assert all[d + k] == lines[k];
    assert all[d + k + 1..d + n] == lines[k + 1..n] && all[d + n..] == lines[n..] && all[..d + k] == front + lines[..k];
  }

  predicate HunksReachAt(lines: seq<string>, k: nat, n: nat) {
    && LongAt(lines, k, n) && ParseHunks(Cut(lines, k, n)).Ok?
    && ParseHunks(Cut(lines, k, n)).value.0 != [] && ParseHunks(Cut(lines, k, n)).value.1 == []
  }

  lemma TooLongThere(lines: seq<string>)
    requires ParseHunks(lines) == Err(NumberTooLong)
    ensures lines != [] && HunkHeader(lines[0]).Some?
  {}

  lemma TooLongAtOnce(lines: seq<string>, size: nat)
    requires lines != [] && size < |lines| && BodyLines(lines[1..size + 1]) && BodyOver(lines[size + 1..])
    requires LongHeader(lines[0]) && ParseBody(lines[1..size + 1]).Ok?
    ensures HunksReachAt(lines, 0, size + 1)
  {
    hide ParseBody, HunkHeader, BodyLines;
    var body := lines[1..size + 1];
    PlainHeader();
    HunkAhead(PLAIN, body, []);
    assert Cut(lines, 0, size + 1) == [PLAIN] + body + [];
  }

  lemma {:induction false} HunksTooLong(lines: seq<string>) returns (k: nat, n: nat)
    requires ParseHunks(lines) == Err(NumberTooLong)
    ensures HunksReachAt(lines, k, n)
    decreases |lines|
  {
    hide ParseHunks, HunkHeader, ParseBody, BodySize, Value, Short, BodyLines, LongAt;
    TooLongThere(lines);
    HunkSplits(lines);
    var size := BodySize(lines[1..]);
    var header, body, rest := lines[0], lines[1..size + 1], lines[size + 1..];
    HunkAhead(header, body, rest);
    if !Short(HunkHeader(header).value) {
      k, n := 0, size + 1;
      TooLongAtOnce(lines, size);
    } else {
      var k', n' := HunksTooLong(rest);
      k, n := size + 1 + k', size + 1 + n';
      assert n' <= |rest| && k' < n' by { LongIsWithin(rest, k', n'); }
      CutBehind([header] + body, rest, k', n');
      PlainHeader();
      var cut := Cut(rest, k', n');
      assert cut[0] == if k' == 0 then PLAIN else rest[0];
      HunkAhead(header, body, cut);
      assert [header] + body + cut == Cut(lines, k, n);
    }
  }

  lemma LongIsWithin(lines: seq<string>, k: nat, n: nat)
    requires LongAt(lines, k, n)
    ensures k < n <= |lines|
  {}

  predicate NotAHunk(lines: seq<string>) { BodyOver(lines) && (lines != [] ==> !StartsWith(lines[0], "@@")) }

  /** These lines are these hunks, whatever is behind them. */
  ghost predicate Independent(lines: seq<string>, hunks: seq<Hunk>) {
    forall other | NotAHunk(other) :: ParseHunks(lines + other) == Ok((hunks, other))
  }

  lemma NoHunksAtAll(lines: seq<string>)
    requires lines == []
    ensures Independent(lines, [])
  {
    forall other | NotAHunk(other) ensures ParseHunks(lines + other) == Ok(([], other)) {
      assert lines + other == other;
      NoHunkThere(other);
    }
  }

  lemma OneMoreHunk(header: string, body: seq<string>, lines: seq<string>, hunks: seq<Hunk>)
    requires HunkHeader(header).Some? && Short(HunkHeader(header).value) && BodyLines(body) && ParseBody(body).Ok?
    requires Independent(lines, hunks) && BodyOver(lines)
    ensures var m := HunkHeader(header).value;
      Independent([header] + body + lines, [Hunk(Value(m.0), Value(m.1), ParseBody(body).value.0)] + hunks)
  {
    hide ParseHunks, HunkHeader, ParseBody, Value, Short, BodyLines;
    var m := HunkHeader(header).value;
    forall other | NotAHunk(other)
      ensures ParseHunks([header] + body + lines + other) == Ok(([Hunk(Value(m.0), Value(m.1), ParseBody(body).value.0)] + hunks, other))
    {
      assert [header] + body + lines + other == [header] + body + (lines + other);
      assert lines == [] ==> lines + other == other;
      HunkAhead(header, body, lines + other);
    }
  }

  /** Where the hunks end. */
  lemma {:induction false} HunksAlone(lines: seq<string>, hunks: seq<Hunk>, rest: seq<string>) returns (m: nat)
    requires ParseHunks(lines) == Ok((hunks, rest))
    ensures m <= |lines| && rest == lines[m..] && Independent(lines[..m], hunks)
    ensures hunks != [] ==> NotAHunk(rest)
    ensures BodyOver(lines) ==> BodyOver(lines[..m]) && NotAHunk(rest)
    decreases |lines|
  {
    hide ParseHunks, HunkHeader, ParseBody, BodySize, Value, Short, BodyLines, Independent;
    if lines == [] || !StartsWith(lines[0], "@@") {
      m := 0;
      NoHunkThere(lines);
      NoHunksAtAll(lines[..0]);
    } else {
      HunkThere(lines);
      HunkSplits(lines);
      var size := BodySize(lines[1..]);
      var header, body, more := lines[0], lines[1..size + 1], lines[size + 1..];
      HunkAhead(header, body, more);
      var found := ParseHunks(more).value;
      var m' := HunksAlone(more, found.0, rest);
      m := size + 1 + m';
      OneMoreHunk(header, body, more[..m'], found.0);
      assert lines[..m] == [header] + body + more[..m'];
      HeaderStarts(header);
    }
  }

  /** In the hunks of the first file. */
  lemma FileReaches(lines: seq<string>, k: nat, n: nat)
    requires FileHeader(lines) && HunksReachAt(lines[2..], k, n)
    ensures ReachesAt(lines, k + 2, n + 2)
  {
    hide ParseFiles, ParseHunks, HeaderPath, LongAt;
    LongIsWithin(lines[2..], k, n);
    var inner := Cut(lines[2..], k, n);
    var cut := lines[..2] + inner;
    assert lines == lines[..2] + lines[2..];
    CutBehind(lines[..2], lines[2..], k, n);
    assert cut[2..] == inner && cut[0] == lines[0] && cut[1] == lines[1];
    FileAhead(cut);
    NoFilesThere();
  }

  lemma NoFilesThere()
    ensures ParseFiles([]) == Ok([])
  {}

  /** The header is not in the first line, which stays. */
  lemma FirstLineStays(lines: seq<string>, k: nat, n: nat)
    requires ReachesAt(lines, k, n)
    ensures k < n <= |lines| && Cut(lines, k, n)[0] == lines[0]
  {
    hide ParseFiles, Ignored, IsBlank, HeaderPath;
    PlainHeader();
    if k == 0 { NothingElse(Cut(lines, k, n)); }
  }

  /** In a later file. */
  lemma FileThenReaches(lines: seq<string>, hunks: seq<Hunk>, m: nat, k: nat, n: nat)
    requires FileHeader(lines) && hunks != [] && m + 2 <= |lines| && Independent(lines[2..][..m], hunks)
    requires NotAHunk(lines[2..][m..]) && ReachesAt(lines[2..][m..], k, n)
    ensures ReachesAt(lines, m + 2 + k, m + 2 + n)
  {
    hide ParseFiles, ParseHunks, HeaderPath, LongAt, Ignored, IsBlank, Cut, EndsBody;
    var front, rest := lines[..m + 2], lines[2..][m..];
    FirstLineStays(rest, k, n);
    var inner := Cut(rest, k, n);
    var cut := front + inner;
    assert lines == front + rest;
    CutBehind(front, rest, k, n);
    assert NotAHunk(inner);
    assert cut[2..] == lines[2..][..m] + inner && cut[0] == lines[0] && cut[1] == lines[1];
    FileAhead(cut);
  }

  lemma {:induction false} FilesTooLong(lines: seq<string>)
    requires ParseFiles(lines) == Err(NumberTooLong)
    ensures Reaches(lines)
    decreases |lines|
  {
    hide ParseFiles, ParseHunks, HeaderPath, LongAt, Ignored, IsBlank, Independent;
    if lines == [] {
      NoFilesThere();
    } else if FileHeader(lines) {
      FileAhead(lines);
      if ParseHunks(lines[2..]).Err? {
        var k, n := HunksTooLong(lines[2..]);
        FileReaches(lines, k, n);
      } else {
        var (hunks, rest) := ParseHunks(lines[2..]).value;
        var m := HunksAlone(lines[2..], hunks, rest);
        FilesTooLong(rest);
        var k: nat, n: nat :| ReachesAt(rest, k, n);
        FileThenReaches(lines, hunks, m, k, n);
      }
    } else if Passed(lines[0]) {
      PassedAhead(lines);
      FilesTooLong(lines[1..]);
      var k: nat, n: nat :| ReachesAt(lines[1..], k, n);
      PassedReaches(lines, k, n);
    } else {
      NothingElse(lines);
    }
  }

  lemma PassedReaches(lines: seq<string>, k: nat, n: nat)
    requires lines != [] && Passed(lines[0]) && ReachesAt(lines[1..], k, n)
    ensures ReachesAt(lines, k + 1, n + 1)
  {
    hide ParseFiles, LongAt, Ignored, IsBlank;
    LongIsWithin(lines[1..], k, n);
    assert lines == [lines[0]] + lines[1..];
    CutBehind([lines[0]], lines[1..], k, n);
    var cut := [lines[0]] + Cut(lines[1..], k, n);
    assert cut[1..] == Cut(lines[1..], k, n);
    PassedAhead(cut);
  }

  // ---- the promise -----------------------------------------------------------------------------

  /** The interpreter's error escapes the parser exactly when some header is too long and the lines up to the end of its
      hunk would be a diff without it. */
  lemma TooLongExactly(text: string)
    requires !IsBlank(text)
    ensures Parse(text) == Err(NumberTooLong) <==> Reaches(TextLines(text))
  {
    var lines := TextLines(text);
    hide ParseFiles, LongHeader;
    if ParseFiles(lines) == Err(NumberTooLong) { FilesTooLong(lines); }
    if k: nat, n: nat :| ReachesAt(lines, k, n) {
      assert lines == lines[..k] + ([lines[k]] + lines[k + 1..n] + lines[n..]);
      FilesReach(lines[..k], lines[k], lines[k + 1..n], lines[n..]);
    }
  }

  /** A diff without lines, whose one header starts with these digits. */
  function LongDiff(digits: string): string { Unlines(["--- a/f", "+++ b/f", "@@ -" + (digits + " +1 @@")]) }

  lemma LongStart(digits: string)
    requires AllDigits(digits) && digits != ""
    ensures HunkHeader("@@ -" + (digits + " +1 @@")) == Some((digits, "1"))
  {
    hide HunkHeader;
    BareHeader(digits, "1");
    assert " +" + ("1" + " @@") == " +1 @@";
  }

  lemma PlainLine(line: string)
    requires '\n' !in line && line != "" && line[|line| - 1] != '\r'
    ensures Chop(line) == line
  {}

  /** At an input: more digits than the interpreter takes. */
  lemma LongDiffIsTooLong(digits: string)
    requires AllDigits(digits) && |digits| > MAX_DIGITS
    ensures !IsBlank(LongDiff(digits)) && Parse(LongDiff(digits)) == Err(NumberTooLong)
  {
    hide HunkHeader, ParseFiles, ParseHunks, HeaderPath, ReplaceCrLf, Split;
    var header := "@@ -" + (digits + " +1 @@");
    var lines := ["--- a/f", "+++ b/f", header];
    LongLines(digits, header, lines);
    LongStart(digits);
    HunkAhead(header, [], []);
    assert lines[2..] == [header] + [] + [];
    NamedPath("a/", "f");
    assert lines[0][4..] == "a/" + "f";
    FileAhead(lines);
  }

  lemma LongLines(digits: string, header: string, lines: seq<string>)
    requires AllDigits(digits) && header == "@@ -" + (digits + " +1 @@") && lines == ["--- a/f", "+++ b/f", header]
    ensures TextLines(Unlines(lines)) == lines && !IsBlank(Unlines(lines))
  {
    hide ReplaceCrLf, Split;
    assert NewlineFree(lines);
    TextLinesUnlines(lines);
    PlainLine(lines[0]);
    PlainLine(lines[1]);
    PlainLine(header);
    assert ChopLines(lines) == lines;
    assert Unlines(lines)[0] == '-' && !IsSpace('-');
  }
}
