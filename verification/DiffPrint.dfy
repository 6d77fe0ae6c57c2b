/** Writing diffs down, and what parsing them gives back. */
module DiffPrint {
  import opened Wrappers
  import opened Diffs
  import opened DiffParse

  // ---- printing --------------------------------------------------------------------------------

  function Digit(n: nat): char
    requires n < 10
  {
    ('0' as int + n) as char
  }

  function Decimal(n: nat): string {
    if n < 10 then [Digit(n)] else Decimal(n / 10) + [Digit(n % 10)]
  }

  function PrintPath(prefix: string, path: Option<string>): string {
    if path.None? then DEV_NULL else prefix + path.value
  }

  function PrintHeader(h: Hunk): string {
    "@@ -" + (Decimal(h.oldStart) + ("," + (Decimal(OldCount(h)) + (" +" + (Decimal(h.newStart) + ("," + (Decimal(NewCount(h)) + " @@")))))))
  }

  function PrintHunks(hunks: seq<Hunk>): seq<string> {
    if hunks == [] then [] else [PrintHeader(hunks[0])] + hunks[0].lines + PrintHunks(hunks[1..])
  }

  function PrintFiles(files: seq<FileDiff>): seq<string> {
    if files == [] then []
    else
      ["--- " + PrintPath("a/", files[0].oldPath), "+++ " + PrintPath("b/", files[0].newPath)]
      + PrintHunks(files[0].hunks) + PrintFiles(files[1..])
  }

  function Unlines(lines: seq<string>): string {
    if lines == [] then "" else lines[0] + "\n" + Unlines(lines[1..])
  }

  function Print(files: seq<FileDiff>): string { Unlines(PrintFiles(files)) }

  // ---- what can be printed ---------------------------------------------------------------------

  predicate PrintablePath(p: string) { '\n' !in p && '\t' !in p && (p != "" ==> !IsSpace(p[|p| - 1])) }

  predicate PrintableHunk(h: Hunk) { forall raw | raw in h.lines :: HunkLine(raw) && '\n' !in raw }

  predicate PrintableHunks(hunks: seq<Hunk>) { forall h | h in hunks :: PrintableHunk(h) }

  predicate PrintableFile(fd: FileDiff) {
    && (fd.oldPath.Some? || fd.newPath.Some?)
    && (fd.oldPath.Some? ==> PrintablePath(fd.oldPath.value))
    && (fd.newPath.Some? ==> PrintablePath(fd.newPath.value))
    && fd.hunks != [] && PrintableHunks(fd.hunks)
  }

  predicate Printable(files: seq<FileDiff>) { forall fd | fd in files :: PrintableFile(fd) }

  /** No removed line reads like a file header once its prefix is in front of it. */
  predicate DashFreeHunk(h: Hunk) { forall raw | raw in h.lines :: !StartsWith(raw, "--- ") }

  predicate DashFreeHunks(hunks: seq<Hunk>) { forall h | h in hunks :: DashFreeHunk(h) }

  predicate DashFree(files: seq<FileDiff>) { forall fd | fd in files :: DashFreeHunks(fd.hunks) }

  /** The interpreter reads both starts. */
  predicate ShortHunk(h: Hunk) { Short((Decimal(h.oldStart), Decimal(h.newStart))) }

  predicate ShortHunks(hunks: seq<Hunk>) { forall h | h in hunks :: ShortHunk(h) }

  predicate ShortStarts(files: seq<FileDiff>) { forall fd | fd in files :: ShortHunks(fd.hunks) }

  // ---- a carriage return at the end of a line --------------------------------------------------

  /** The line as it is read back: a carriage return in front of the newline is lost. */
  function Chop(s: string): string {
    if s != "" && s[|s| - 1] == '\r' then s[..|s| - 1] else s
  }

  function ChopLines(lines: seq<string>): (r: seq<string>)
    ensures |r| == |lines| && forall k | 0 <= k < |r| :: r[k] == Chop(lines[k])
  {
    if lines == [] then [] else [Chop(lines[0])] + ChopLines(lines[1..])
  }

  function ChopHunk(h: Hunk): Hunk { h.(lines := ChopLines(h.lines)) }

  function ChopHunks(hunks: seq<Hunk>): (r: seq<Hunk>)
    ensures |r| == |hunks| && forall k | 0 <= k < |r| :: r[k] == ChopHunk(hunks[k])
  {
    if hunks == [] then [] else [ChopHunk(hunks[0])] + ChopHunks(hunks[1..])
  }

  function ChopFile(fd: FileDiff): FileDiff { fd.(hunks := ChopHunks(fd.hunks)) }

  function ChopFiles(files: seq<FileDiff>): (r: seq<FileDiff>)
    ensures |r| == |files| && forall k | 0 <= k < |r| :: r[k] == ChopFile(files[k])
  {
    if files == [] then [] else [ChopFile(files[0])] + ChopFiles(files[1..])
  }

  predicate CrFreeLines(lines: seq<string>) { forall raw | raw in lines :: Chop(raw) == raw }

  predicate CrFreeHunks(hunks: seq<Hunk>) { forall h | h in hunks :: CrFreeLines(h.lines) }

  predicate CrFree(files: seq<FileDiff>) { forall fd | fd in files :: CrFreeHunks(fd.hunks) }

  lemma ChopHunkSame(h: Hunk)
    ensures ChopHunk(h) == h <==> CrFreeLines(h.lines)
  {
    if CrFreeLines(h.lines) { assert ChopLines(h.lines) == h.lines; }
  }

  lemma ChopFileSame(fd: FileDiff)
    ensures ChopFile(fd) == fd <==> CrFreeHunks(fd.hunks)
  {
    forall h: Hunk ensures ChopHunk(h) == h <==> CrFreeLines(h.lines) { ChopHunkSame(h); }
    if CrFreeHunks(fd.hunks) { assert ChopHunks(fd.hunks) == fd.hunks; }
  }

  lemma ChopFilesSame(files: seq<FileDiff>)
    ensures ChopFiles(files) == files <==> CrFree(files)
  {
    forall fd: FileDiff ensures ChopFile(fd) == fd <==> CrFreeHunks(fd.hunks) { ChopFileSame(fd); }
    if CrFree(files) { assert ChopFiles(files) == files; }
  }

  lemma ChopFront(front: seq<string>, last: string)
    ensures ChopLines(front + [last]) == ChopLines(front) + [Chop(last)]
  {}

  lemma ChopKeepsFirst(raw: string)
    requires HunkLine(raw)
    ensures Chop(raw) != "" && Chop(raw)[0] == raw[0]
  {}

  lemma CountLast(front: seq<string>, last: string, counts: char -> bool)
    ensures CountPrefix(front + [last], counts)
      == CountPrefix(front, counts) + (if last != "" && counts(last[0]) then 1 else 0)
  {
    assert (front + [last])[..|front|] == front;
  }

  lemma {:induction false} ChopKeepsCounts(lines: seq<string>, counts: char -> bool)
    requires forall raw | raw in lines :: HunkLine(raw)
    ensures CountPrefix(ChopLines(lines), counts) == CountPrefix(lines, counts)
  {
    if lines != [] {
      var front, last := lines[..|lines| - 1], lines[|lines| - 1];
      assert lines == front + [last];
      ChopKeepsFirst(last);
      ChopKeepsCounts(front, counts);
      ChopFront(front, last);
      CountLast(front, last, counts);
      CountLast(ChopLines(front), Chop(last), counts);
    }
  }

  // ---- numbers and headers ---------------------------------------------------------------------

  lemma {:induction false} DecimalValue(n: nat)
    ensures AllDigits(Decimal(n)) && Decimal(n) != "" && Value(Decimal(n)) == n
  {
    if n >= 10 {
      DecimalValue(n / 10);
      assert Decimal(n)[..|Decimal(n)| - 1] == Decimal(n / 10);
    } else {
      assert Decimal(n)[..0] == "";
    }
  }

  /** Written down again, a number has no more digits than it was read from. */
  lemma {:induction false} DecimalIsShort(digits: string)
    requires AllDigits(digits) && digits != ""
    ensures |Decimal(Value(digits))| <= |digits|
  {
    var front, last := digits[..|digits| - 1], digits[|digits| - 1];
    assert IsDigit(last);
    if front != "" { DecimalIsShort(front); }
  }

  lemma {:induction false} DigitCountPrefix(d: string, rest: string)
    requires AllDigits(d)
    requires rest != "" ==> !IsDigit(rest[0])
    ensures DigitCount(d + rest) == |d|
  {
    if d == "" {
      assert d + rest == rest;
    } else {
      DigitCountPrefix(d[1..], rest);
      assert (d + rest)[1..] == d[1..] + rest;
    }
  }

  lemma DigitsDecimal(n: nat, rest: string)
    requires rest != "" ==> !IsDigit(rest[0])
    ensures Digits(Decimal(n) + rest) == Some((Decimal(n), rest))
  {
    DecimalValue(n);
    DigitCountPrefix(Decimal(n), rest);
    assert (Decimal(n) + rest)[..|Decimal(n)|] == Decimal(n);
    assert (Decimal(n) + rest)[|Decimal(n)|..] == rest;
  }

  lemma RangeDecimal(start: nat, count: nat, rest: string)
    requires rest != "" && rest[0] == ' '
    ensures Range(Decimal(start) + ("," + (Decimal(count) + rest))) == Some((Decimal(start), rest))
  {
    DigitsDecimal(count, rest);
    DigitsDecimal(start, "," + (Decimal(count) + rest));
    assert ("," + (Decimal(count) + rest))[1..] == Decimal(count) + rest;
  }

  lemma SkipPrefix(prefix: string, rest: string)
    ensures Skip(prefix + rest, prefix) == Some(rest)
  {
    assert (prefix + rest)[|prefix|..] == rest;
  }

  lemma HeaderRoundTrip(h: Hunk)
    ensures HunkHeader(PrintHeader(h)) == Some((Decimal(h.oldStart), Decimal(h.newStart)))
    ensures AllDigits(Decimal(h.oldStart)) && Value(Decimal(h.oldStart)) == h.oldStart
    ensures AllDigits(Decimal(h.newStart)) && Value(Decimal(h.newStart)) == h.newStart
  {
    DecimalValue(h.oldStart);
    DecimalValue(h.newStart);
    var newSide := Decimal(h.newStart) + ("," + (Decimal(NewCount(h)) + " @@"));
    var oldSide := Decimal(h.oldStart) + ("," + (Decimal(OldCount(h)) + (" +" + newSide)));
    assert Skip(PrintHeader(h), "@@ -") == Some(oldSide) by { SkipPrefix("@@ -", oldSide); }
    assert Range(oldSide) == Some((Decimal(h.oldStart), " +" + newSide)) by { RangeDecimal(h.oldStart, OldCount(h), " +" + newSide); }
    assert Skip(" +" + newSide, " +") == Some(newSide) by { SkipPrefix(" +", newSide); }
    assert Range(newSide) == Some((Decimal(h.newStart), " @@")) by { RangeDecimal(h.newStart, NewCount(h), " @@"); }
  }

  // ---- paths -----------------------------------------------------------------------------------

  lemma {:induction false} SplitNone(s: string, sep: char)
    requires sep !in s
    ensures Split(s, sep) == [s]
  {
    if s != "" {
      SplitNone(s[1..], sep);
      assert [s[0]] + s[1..] == s;
      assert [s[1..]][1..] == [];
    }
  }

  lemma StripNothing(s: string)
    requires s != "" ==> !IsSpace(s[0]) && !IsSpace(s[|s| - 1])
    ensures Strip(s) == s
  {}

  lemma NamedPath(prefix: string, p: string)
    requires prefix == "a/" || prefix == "b/"
    requires PrintablePath(p)
    ensures HeaderPath(prefix + p) == Some(p)
  {
    var raw := prefix + p;
    SplitNone(raw, '\t');
    StripNothing(raw);
    assert raw[0] != DEV_NULL[0];
    assert raw[2..] == p;
  }

  lemma PathRoundTrip(path: Option<string>, prefix: string)
    requires prefix == "a/" || prefix == "b/"
    requires path.Some? ==> PrintablePath(path.value)
    ensures HeaderPath(PrintPath(prefix, path)) == path
  {
    if path.Some? {
      NamedPath(prefix, path.value);
    } else {
      SplitNone(DEV_NULL, '\t');
      StripNothing(DEV_NULL);
    }
  }

  // ---- the parser on printed lines -------------------------------------------------------------

  lemma {:induction false} BodyRoundTrip(body: seq<string>, rest: seq<string>)
    requires forall raw | raw in body :: HunkLine(raw) && !StartsWith(raw, "--- ")
    requires rest == [] || EndsBody(rest[0])
    ensures ParseBody(body + rest) == Ok((body, rest))
  {
    if body == [] {
      assert body + rest == rest;
    } else {
      var raw := body[0];
      assert HunkLine(raw) && !StartsWith(raw, "--- ");
      assert raw[0] != '@' && raw[0] != 'd';
      BodyRoundTrip(body[1..], rest);
      assert (body + rest)[1..] == body[1..] + rest;
      assert [raw] + body[1..] == body;
    }
  }

  lemma HunkStep(header: string, h: Hunk, hunks: Result<(seq<Hunk>, seq<string>), ParseError>, more: seq<string>)
    requires StartsWith(header, "@@") && HunkHeader(header) == Some((Decimal(h.oldStart), Decimal(h.newStart)))
    requires AllDigits(Decimal(h.oldStart)) && Value(Decimal(h.oldStart)) == h.oldStart
    requires AllDigits(Decimal(h.newStart)) && Value(Decimal(h.newStart)) == h.newStart
    requires ParseBody(h.lines + more) == Ok((h.lines, more))
    requires ParseHunks(more) == hunks
    ensures ParseHunks([header] + (h.lines + more)) == if ShortHunk(h) then Ahead([h], hunks) else Err(NumberTooLong)
  {
    assert ([header] + (h.lines + more))[1..] == h.lines + more;
  }

  /** What may stand behind a file's hunks. */
  predicate AfterHunks(rest: seq<string>) { rest == [] || StartsWith(rest[0], "--- ") || StartsWith(rest[0], "diff ") }

  lemma HunksEndBody(hunks: seq<Hunk>, rest: seq<string>)
    requires AfterHunks(rest)
    ensures var lines := PrintHunks(hunks) + rest; lines == [] || EndsBody(lines[0])
  {
    if hunks != [] { assert (PrintHunks(hunks) + rest)[0] == PrintHeader(hunks[0]); }
  }

  lemma NoHunksAhead(rest: seq<string>)
    requires AfterHunks(rest)
    ensures ParseHunks(rest) == Ok(([], rest))
  {
    if rest != [] { assert rest[0][0] == '-' || rest[0][0] == 'd'; }
  }

  lemma PrintedHeader(h: Hunk)
    ensures StartsWith(PrintHeader(h), "@@")
  {
    assert PrintHeader(h)[..2] == "@@";
  }

  lemma ThreeParts(a: seq<string>, b: seq<string>, c: seq<string>)
    ensures a + b + c == a + (b + c)
  {}

  lemma FourParts(a: seq<string>, b: seq<string>, c: seq<string>, d: seq<string>)
    ensures a + b + c + d == a + (b + (c + d))
  {}

  lemma HunkRoundTrip(h: Hunk, more: seq<string>)
    requires PrintableHunk(h) && DashFreeHunk(h) && (more == [] || EndsBody(more[0]))
    ensures ParseHunks([PrintHeader(h)] + (h.lines + more)) == if ShortHunk(h) then Ahead([h], ParseHunks(more)) else Err(NumberTooLong)
  {
    hide ParseHunks, ParseBody, PrintHeader, HunkHeader, Value, Decimal, ShortHunk, EndsBody;
    PrintedHeader(h);
    HeaderRoundTrip(h);
    BodyRoundTrip(h.lines, more);
    HunkStep(PrintHeader(h), h, ParseHunks(more), more);
  }

  lemma {:induction false} HunksRoundTrip(hunks: seq<Hunk>, rest: seq<string>)
    requires PrintableHunks(hunks) && DashFreeHunks(hunks)
    requires AfterHunks(rest)
    ensures ParseHunks(PrintHunks(hunks) + rest) == if ShortHunks(hunks) then Ok((hunks, rest)) else Err(NumberTooLong)
  {
    if hunks == [] {
      assert PrintHunks(hunks) + rest == rest;
      NoHunksAhead(rest);
    } else {
      hide ParseHunks, PrintHeader, ShortHunk, EndsBody, PrintableHunk, DashFreeHunk;
      var h, others := hunks[0], hunks[1..];
      var more := PrintHunks(others) + rest;
      assert [h] + others == hunks;
      FourParts([PrintHeader(h)], h.lines, PrintHunks(others), rest);
      HunksRoundTrip(others, rest);
      HunksEndBody(others, rest);
      HunkRoundTrip(h, more);
      assert ShortHunks(hunks) <==> ShortHunk(h) && ShortHunks(others);
    }
  }

  lemma FileStep(before: string, after: string, fd: FileDiff, files: Result<seq<FileDiff>, ParseError>, hunkLines: seq<string>, more: seq<string>)
    requires HeaderPath(before) == fd.oldPath && HeaderPath(after) == fd.newPath && (fd.oldPath.Some? || fd.newPath.Some?)
    requires ParseHunks(hunkLines + more) == if ShortHunks(fd.hunks) then Ok((fd.hunks, more)) else Err(NumberTooLong)
    requires fd.hunks != [] && ParseFiles(more) == files
    ensures ParseFiles(["--- " + before, "+++ " + after] + (hunkLines + more))
      == if ShortHunks(fd.hunks) then AheadAll([fd], files) else Err(NumberTooLong)
  {
    hide HeaderPath, ParseHunks, ShortHunks;
    var lines := ["--- " + before, "+++ " + after] + (hunkLines + more);
    assert lines[2..] == hunkLines + more;
    assert lines[0][4..] == before && lines[1][4..] == after;
    if ShortHunks(fd.hunks) {
      FilesRound(lines, [], fd.hunks, more);
      AheadAllTwice([], [fd], ParseFiles(lines));
    }
  }

  lemma PrintedStart(files: seq<FileDiff>)
    ensures PrintFiles(files) == [] || StartsWith(PrintFiles(files)[0], "--- ")
  {}

  lemma {:induction false} FilesRoundTrip(files: seq<FileDiff>)
    requires Printable(files) && DashFree(files)
    ensures ParseFiles(PrintFiles(files)) == if ShortStarts(files) then Ok(files) else Err(NumberTooLong)
  {
    if files != [] {
      hide HeaderPath, PrintPath, PrintHunks, ParseHunks, ParseFiles, PrintablePath, ShortHunks, DashFreeHunks, PrintableHunks;
      var fd, rest := files[0], files[1..];
      var more := PrintFiles(rest);
      var before, after, hunkLines := PrintPath("a/", fd.oldPath), PrintPath("b/", fd.newPath), PrintHunks(fd.hunks);
      assert [fd] + rest == files;
      ThreeParts(["--- " + before, "+++ " + after], hunkLines, more);
      assert PrintableFile(fd) && DashFreeHunks(fd.hunks);
      FilesRoundTrip(rest);
      PrintedStart(rest);
      PathRoundTrip(fd.oldPath, "a/");
      PathRoundTrip(fd.newPath, "b/");
      HunksRoundTrip(fd.hunks, more);
      FileStep(before, after, fd, ParseFiles(more), hunkLines, more);
      assert ShortStarts(files) <==> ShortHunks(fd.hunks) && ShortStarts(rest);
    }
  }

  // ---- lines and text --------------------------------------------------------------------------

  lemma ReplaceFirstChar(c: char, tail: string)
    requires tail != "" && !(c == '\r' && tail[0] == '\n')
    ensures ReplaceCrLf([c] + tail) == [c] + ReplaceCrLf(tail)
  {
    assert ([c] + tail)[1..] == tail;
  }

  lemma PutFirst(c: char, line: string, rest: string)
    ensures [c] + (line + "\n" + rest) == [c] + line + "\n" + rest
  {}

  lemma {:induction false} ReplaceFirstLine(line: string, rest: string)
    requires '\n' !in line
    ensures ReplaceCrLf(line + "\n" + rest) == Chop(line) + "\n" + ReplaceCrLf(rest)
  {
    var s := line + "\n" + rest;
    if line == "" {
      assert s == "\n" + rest && s[1..] == rest;
    } else if |line| == 1 && line[0] == '\r' {
      assert s[1] == '\n' && s[2..] == rest;
    } else {
      ReplaceFirstLine(line[1..], rest);
      var tail := line[1..] + "\n" + rest;
      assert tail[0] == if |line| == 1 then '\n' else line[1];
      ReplaceFirstChar(line[0], tail);
      assert [line[0]] + line[1..] == line && [line[0]] + Chop(line[1..]) == Chop(line);
      PutFirst(line[0], line[1..], rest);
      PutFirst(line[0], Chop(line[1..]), ReplaceCrLf(rest));
    }
  }

  lemma {:induction false} SplitFirstLine(line: string, rest: string)
    requires '\n' !in line
    ensures Split(line + "\n" + rest, '\n') == [line] + Split(rest, '\n')
  {
    var s := line + "\n" + rest;
    if line == "" {
      assert s[1..] == rest;
    } else {
      SplitFirstLine(line[1..], rest);
      assert s[1..] == line[1..] + "\n" + rest;
      assert [line[0]] + line[1..] == line;
    }
  }

  predicate NewlineFree(lines: seq<string>) { forall line | line in lines :: '\n' !in line }

  lemma {:induction false} ReplaceUnlines(lines: seq<string>)
    requires NewlineFree(lines)
    ensures ReplaceCrLf(Unlines(lines)) == Unlines(ChopLines(lines))
  {
    if lines != [] {
      ReplaceUnlines(lines[1..]);
      ReplaceFirstLine(lines[0], Unlines(lines[1..]));
      assert ChopLines(lines)[1..] == ChopLines(lines[1..]);
    }
  }

  lemma {:induction false} SplitUnlines(lines: seq<string>)
    requires NewlineFree(lines)
    ensures Split(Unlines(lines), '\n') == lines + [""]
  {
    if lines != [] {
      SplitUnlines(lines[1..]);
      SplitFirstLine(lines[0], Unlines(lines[1..]));
      assert [lines[0]] + (lines[1..] + [""]) == lines + [""];
    }
  }

  lemma TextLinesUnlines(lines: seq<string>)
    requires NewlineFree(lines)
    ensures TextLines(Unlines(lines)) == ChopLines(lines)
  {
    var chopped := ChopLines(lines);
    ReplaceUnlines(lines);
    forall line | line in chopped ensures '\n' !in line {
      var k :| 0 <= k < |chopped| && line == chopped[k];
      assert '\n' !in lines[k];
    }
    SplitUnlines(chopped);
    assert (chopped + [""])[..|lines|] == chopped;
  }

  lemma ChopAppend(a: seq<string>, b: seq<string>)
    ensures ChopLines(a + b) == ChopLines(a) + ChopLines(b)
  {}

  lemma HeaderIsPlain(h: Hunk)
    ensures '\n' !in PrintHeader(h) && Chop(PrintHeader(h)) == PrintHeader(h)
  {
    DecimalValue(h.oldStart);
    DecimalValue(h.newStart);
    DecimalValue(OldCount(h));
    DecimalValue(NewCount(h));
    assert PrintHeader(h)[|PrintHeader(h)| - 1] == '@';
  }

  /** Printing what is read back is reading back what is printed. */
  lemma {:induction false} PrintChoppedHunks(hunks: seq<Hunk>)
    requires PrintableHunks(hunks)
    ensures NewlineFree(PrintHunks(hunks)) && PrintHunks(ChopHunks(hunks)) == ChopLines(PrintHunks(hunks))
  {
    if hunks != [] {
      var h, header, rest := hunks[0], PrintHeader(hunks[0]), PrintHunks(hunks[1..]);
      assert PrintableHunk(h);
      PrintChoppedHunks(hunks[1..]);
      HeaderIsPlain(h);
      ChopKeepsCounts(h.lines, OnOldSide);
      ChopKeepsCounts(h.lines, OnNewSide);
      assert PrintHeader(ChopHunk(h)) == header;
      ChopAppend([header] + h.lines, rest);
      ChopAppend([header], h.lines);
      assert ChopLines([header]) == [header];
      assert ChopHunks(hunks)[1..] == ChopHunks(hunks[1..]);
    }
  }

  lemma PathIsPlain(mark: string, prefix: string, path: Option<string>)
    requires |mark| == 4 && '\n' !in mark && (prefix == "a/" || prefix == "b/")
    requires path.Some? ==> PrintablePath(path.value)
    ensures var line := mark + PrintPath(prefix, path); '\n' !in line && Chop(line) == line
  {}

  lemma PrintFilesOne(files: seq<FileDiff>)
    requires files != []
    ensures PrintFiles(files) == ["--- " + PrintPath("a/", files[0].oldPath), "+++ " + PrintPath("b/", files[0].newPath)]
      + PrintHunks(files[0].hunks) + PrintFiles(files[1..])
  {}

  lemma ChopBehind(before: string, after: string, hunkLines: seq<string>, rest: seq<string>)
    requires Chop(before) == before && Chop(after) == after
    ensures ChopLines([before, after] + hunkLines + rest) == [before, after] + ChopLines(hunkLines) + ChopLines(rest)
  {
    ChopAppend([before, after] + hunkLines, rest);
    ChopAppend([before, after], hunkLines);
    assert ChopLines([before, after]) == [before, after];
  }

  lemma {:induction false} PrintChoppedFiles(files: seq<FileDiff>)
    requires Printable(files)
    ensures NewlineFree(PrintFiles(files)) && PrintFiles(ChopFiles(files)) == ChopLines(PrintFiles(files))
  {
    if files != [] {
      var fd, hunkLines, rest := files[0], PrintHunks(files[0].hunks), PrintFiles(files[1..]);
      var before, after := "--- " + PrintPath("a/", fd.oldPath), "+++ " + PrintPath("b/", fd.newPath);
      assert PrintableFile(fd);
      PathIsPlain("--- ", "a/", fd.oldPath);
      PathIsPlain("+++ ", "b/", fd.newPath);
      PrintChoppedHunks(fd.hunks);
      PrintChoppedFiles(files[1..]);
      ChopBehind(before, after, hunkLines, rest);
      PrintFilesOne(ChopFiles(files));
      assert ChopFiles(files)[1..] == ChopFiles(files[1..]);
    }
  }

  // ---- what the parser can produce -------------------------------------------------------------

  predicate CleanLines(body: seq<string>, lines: seq<string>) {
    forall raw | raw in body :: HunkLine(raw) && !StartsWith(raw, "--- ") && (raw == " " || raw in lines)
  }

  predicate CleanHunks(hunks: seq<Hunk>, lines: seq<string>) { forall h | h in hunks :: CleanLines(h.lines, lines) && ShortHunk(h) }

  predicate HeaderIn(path: Option<string>, lines: seq<string>) {
    exists line :: line in lines && 4 <= |line| && HeaderPath(line[4..]) == path
  }

  predicate CleanFile(fd: FileDiff, lines: seq<string>) {
    && HeaderIn(fd.oldPath, lines) && HeaderIn(fd.newPath, lines) && (fd.oldPath.Some? || fd.newPath.Some?)
    && fd.hunks != [] && CleanHunks(fd.hunks, lines)
  }

  predicate CleanFiles(files: seq<FileDiff>, lines: seq<string>) { forall fd | fd in files :: CleanFile(fd, lines) }

  ghost predicate Within(some: seq<string>, all: seq<string>) { forall line | line in some :: line in all }

  lemma {:induction false} BodyIsClean(lines: seq<string>, body: seq<string>, rest: seq<string>)
    requires ParseBody(lines) == Ok((body, rest))
    ensures CleanLines(body, lines) && Within(rest, lines)
  {
    if lines != [] && !EndsBody(lines[0]) {
      BodyIsClean(lines[1..], body[1..], rest);
    }
  }

  lemma HunksGrow(hunks: seq<Hunk>, some: seq<string>, all: seq<string>)
    requires CleanHunks(hunks, some) && Within(some, all)
    ensures CleanHunks(hunks, all)
  {}

  lemma FilesGrow(files: seq<FileDiff>, some: seq<string>, all: seq<string>)
    requires CleanFiles(files, some) && Within(some, all)
    ensures CleanFiles(files, all)
  {
    forall fd | fd in files ensures CleanFile(fd, all) {
      assert CleanFile(fd, some);
      HunksGrow(fd.hunks, some, all);
    }
  }

  lemma StartsAreShort(line: string)
    requires HunkHeader(line).Some? && Short(HunkHeader(line).value)
    ensures var m := HunkHeader(line).value; Short((Decimal(Value(m.0)), Decimal(Value(m.1))))
  {
    var m := HunkHeader(line).value;
    assert m.0 != "" && m.1 != "";
    DecimalIsShort(m.0);
    DecimalIsShort(m.1);
  }

  lemma {:induction false} HunksAreClean(lines: seq<string>, hunks: seq<Hunk>, rest: seq<string>)
    requires ParseHunks(lines) == Ok((hunks, rest))
    ensures CleanHunks(hunks, lines) && Within(rest, lines)
    decreases |lines|
  {
    if lines != [] && StartsWith(lines[0], "@@") {
      var (body, left) := ParseBody(lines[1..]).value;
      StartsAreShort(lines[0]);
      BodyShrinks(lines[1..]);
      BodyIsClean(lines[1..], body, left);
      HunksAreClean(left, hunks[1..], rest);
      assert Within(left, lines);
      HunksGrow(hunks[1..], left, lines);
    }
  }

  /** Whatever text it was given: every file has a side and a hunk, its paths come from header lines, and its hunks
      carry prefixed lines of the text that do not look like a file header. */
  lemma {:induction false} FilesAreClean(lines: seq<string>, files: seq<FileDiff>)
    requires ParseFiles(lines) == Ok(files)
    ensures CleanFiles(files, lines)
    decreases |lines|
  {
    if lines != [] {
      if StartsWith(lines[0], "--- ") {
        var (hunks, left) := ParseHunks(lines[2..]).value;
        HunksShrink(lines[2..]);
        HunksAreClean(lines[2..], hunks, left);
        assert Within(lines[2..], lines) && Within(left, lines);
        HunksGrow(hunks, lines[2..], lines);
        FilesAreClean(left, files[1..]);
        FilesGrow(files[1..], left, lines);
        assert files[0].hunks == hunks && CleanFile(files[0], lines) by {
          assert lines[0] in lines && lines[1] in lines;
        }
      } else {
        FilesAreClean(lines[1..], files);
        FilesGrow(files, lines[1..], lines);
      }
    }
  }

  lemma {:induction false} SplitPieces(s: string, sep: char)
    ensures forall piece | piece in Split(s, sep) :: sep !in piece
    ensures forall c: char, piece | piece in Split(s, sep) && c in piece :: c in s
  {
    if s != "" {
      SplitPieces(s[1..], sep);
    }
  }

  lemma {:induction false} StripRightIsCut(s: string)
    ensures StripRight(s) <= s && (StripRight(s) != "" ==> !IsSpace(StripRight(s)[|StripRight(s)| - 1]))
  {
    if s != "" && IsSpace(s[|s| - 1]) { StripRightIsCut(s[..|s| - 1]); }
  }

  lemma {:induction false} StripLeftIsCut(s: string)
    ensures forall c | c in StripLeft(s) :: c in s
  {
    if s != "" && IsSpace(s[0]) { StripLeftIsCut(s[1..]); }
  }

  lemma HeaderPathIsPrintable(raw: string)
    requires '\n' !in raw
    ensures HeaderPath(raw).Some? ==> PrintablePath(HeaderPath(raw).value)
  {
    SplitPieces(raw, '\t');
    var piece := Split(raw, '\t')[0];
    assert piece in Split(raw, '\t');
    StripLeftIsCut(piece);
    StripRightIsCut(StripLeft(piece));
    var name := Strip(piece);
    assert forall c | c in name :: c in piece;
  }

  lemma HeaderInIsPrintable(path: Option<string>, lines: seq<string>)
    requires NewlineFree(lines) && HeaderIn(path, lines)
    ensures path.Some? ==> PrintablePath(path.value)
  {
    var line :| line in lines && 4 <= |line| && HeaderPath(line[4..]) == path;
    HeaderPathIsPrintable(line[4..]);
  }

  lemma CleanIsPrintable(fd: FileDiff, lines: seq<string>)
    requires NewlineFree(lines) && CleanFile(fd, lines)
    ensures PrintableFile(fd) && DashFreeHunks(fd.hunks) && ShortHunks(fd.hunks)
  {
    HeaderInIsPrintable(fd.oldPath, lines);
    HeaderInIsPrintable(fd.newPath, lines);
    forall h | h in fd.hunks ensures PrintableHunk(h) && DashFreeHunk(h) { assert CleanLines(h.lines, lines); }
  }

  /** What the parser returns can be printed, and needs no further condition but the one about carriage returns. */
  lemma ParsedIsPrintable(text: string, files: seq<FileDiff>)
    requires Parse(text) == Ok(files)
    ensures Printable(files) && DashFree(files) && ShortStarts(files) && files != []
  {
    var lines := TextLines(text);
    FilesAreClean(lines, files);
    SplitPieces(ReplaceCrLf(text), '\n');
    assert NewlineFree(lines);
    forall fd | fd in files ensures PrintableFile(fd) && DashFreeHunks(fd.hunks) && ShortHunks(fd.hunks) {
      assert CleanFile(fd, lines);
      CleanIsPrintable(fd, lines);
    }
  }

  // ---- the promises ----------------------------------------------------------------------------

  lemma ChopKeepsShape(files: seq<FileDiff>)
    requires Printable(files) && DashFree(files)
    ensures Printable(ChopFiles(files)) && DashFree(ChopFiles(files))
  {
    forall fd | fd in ChopFiles(files) ensures PrintableFile(fd) && DashFreeHunks(fd.hunks) {
      var k :| 0 <= k < |files| && fd == ChopFile(files[k]);
      assert files[k] in files;
      assert PrintableFile(files[k]) && DashFreeHunks(files[k].hunks);
      ChopKeepsHunks(files[k].hunks);
    }
  }

  lemma ChopKeepsLine(raw: string)
    requires HunkLine(raw) && '\n' !in raw && !StartsWith(raw, "--- ")
    ensures HunkLine(Chop(raw)) && '\n' !in Chop(raw) && !StartsWith(Chop(raw), "--- ")
  {
    assert Chop(raw) <= raw;
  }

  lemma ChopKeepsHunks(hunks: seq<Hunk>)
    requires PrintableHunks(hunks) && DashFreeHunks(hunks)
    ensures PrintableHunks(ChopHunks(hunks)) && DashFreeHunks(ChopHunks(hunks))
  {
    forall h | h in ChopHunks(hunks) ensures PrintableHunk(h) && DashFreeHunk(h) {
      var k :| 0 <= k < |hunks| && h == ChopHunk(hunks[k]);
      assert hunks[k] in hunks;
      assert PrintableHunk(hunks[k]) && DashFreeHunk(hunks[k]);
      forall raw | raw in h.lines ensures HunkLine(raw) && '\n' !in raw && !StartsWith(raw, "--- ") {
        var j :| 0 <= j < |h.lines| && raw == h.lines[j];
        assert hunks[k].lines[j] in hunks[k].lines;
        ChopKeepsLine(hunks[k].lines[j]);
      }
    }
  }

  lemma PrintIsText(files: seq<FileDiff>)
    requires files != []
    ensures !IsBlank(Print(files))
  {
    assert PrintFiles(files)[0][0] == '-';
    assert Print(files)[0] == '-';
  }

  lemma ChopKeepsStarts(files: seq<FileDiff>)
    ensures ShortStarts(ChopFiles(files)) <==> ShortStarts(files)
  {
    var chopped := ChopFiles(files);
    forall k | 0 <= k < |files| ensures ShortHunks(chopped[k].hunks) <==> ShortHunks(files[k].hunks) {
      var a, b := files[k].hunks, chopped[k].hunks;
      forall j | 0 <= j < |a| ensures ShortHunk(b[j]) <==> ShortHunk(a[j]) {}
      if ShortHunks(b) { forall j | 0 <= j < |a| ensures ShortHunk(a[j]) { assert b[j] in b; } }
    }
    if ShortStarts(chopped) { forall k | 0 <= k < |files| ensures ShortHunks(files[k].hunks) { assert chopped[k] in chopped; } }
  }

  /** Reading what was printed: when no removed line reads like a file header, the files come back without the carriage
      returns at the ends of their lines, unless a start is too long to read; and they come back exactly as they were when
      no line ends with a carriage return either. */
  lemma ParsePrint(files: seq<FileDiff>)
    requires Printable(files) && files != []
    ensures DashFree(files) ==> Parse(Print(files)) == if ShortStarts(files) then Ok(ChopFiles(files)) else Err(NumberTooLong)
    ensures Parse(Print(files)) == Ok(files) <==> DashFree(files) && CrFree(files) && ShortStarts(files)
  {
    var lines, chopped := PrintFiles(files), ChopFiles(files);
    PrintChoppedFiles(files);
    TextLinesUnlines(lines);
    PrintIsText(files);
    ChopFilesSame(files);
    if DashFree(files) {
      ChopKeepsShape(files);
      ChopKeepsStarts(files);
      FilesRoundTrip(chopped);
    }
    if Parse(Print(files)) == Ok(files) {
      FilesAreClean(ChopLines(lines), files);
      forall fd | fd in files ensures DashFreeHunks(fd.hunks) { assert CleanFile(fd, ChopLines(lines)); }
    }
  }

  /** Printing whatever was parsed and parsing it again changes nothing, unless a line ends with a carriage return. */
  lemma Reparse(text: string, files: seq<FileDiff>)
    requires Parse(text) == Ok(files)
    ensures Parse(Print(files)) == Ok(files) <==> CrFree(files)
  {
    ParsedIsPrintable(text, files);
    ParsePrint(files);
  }
}
