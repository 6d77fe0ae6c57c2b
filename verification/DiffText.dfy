/** File diffs on texts: splitting into lines, joining them again, and what reversing needs of the text in between. */
module DiffText {
  import opened Wrappers
  import opened Diffs
  import opened DiffLaws
  import opened Splice

  /** The line boundaries of `splitlines`; a carriage return followed by a newline is one boundary. */
  predicate IsBreak(c: char) {
    c in "\n\r\U{000B}\U{000C}\U{001C}\U{001D}\U{001E}\U{0085}\U{2028}\U{2029}"
  }

  /** Length of the first line, its boundary included. */
  function LineLength(s: string): (n: nat)
    requires s != ""
    ensures 0 < n <= |s|
  {
    if s[0] == '\r' && |s| > 1 && s[1] == '\n' then 2
    else if IsBreak(s[0]) || |s| == 1 then 1
    else 1 + LineLength(s[1..])
  }

  function SplitLines(s: string): seq<string> {
    if s == "" then [] else [s[..LineLength(s)]] + SplitLines(s[LineLength(s)..])
  }

  function Join(lines: seq<string>): string {
    if lines == [] then "" else lines[0] + Join(lines[1..])
  }

  lemma {:induction false} JoinSplit(s: string)
    ensures Join(SplitLines(s)) == s
    ensures forall line | line in SplitLines(s) :: line != ""
  {
    if s != "" {
      JoinSplit(s[LineLength(s)..]);
      assert s == s[..LineLength(s)] + s[LineLength(s)..];
    }
  }

  /** Lines as a text whose only boundaries are newlines has them: each ends with its only newline, except that the
      last may have none. */
  ghost predicate Tidy(lines: seq<string>) {
    forall k | 0 <= k < |lines| ::
      && lines[k] != ""
      && (forall x | 0 <= x < |lines[k]| - 1 :: !IsBreak(lines[k][x]))
      && (lines[k][|lines[k]| - 1] == '\n' || (k == |lines| - 1 && !IsBreak(lines[k][|lines[k]| - 1])))
  }

  lemma {:induction false} FirstLine(line: string, rest: string)
    requires line != "" && forall x | 0 <= x < |line| - 1 :: !IsBreak(line[x])
    requires line[|line| - 1] == '\n' || (rest == "" && !IsBreak(line[|line| - 1]))
    ensures LineLength(line + rest) == |line|
  {
    if |line| > 1 {
      FirstLine(line[1..], rest);
      assert (line + rest)[1..] == line[1..] + rest;
      assert !IsBreak(line[0]);
    }
  }

  /** Written down and read again, the lines are the same. */
  predicate ReadsBack(lines: seq<string>) { SplitLines(Join(lines)) == lines }

  /** Tidy lines survive being written down and read back. */
  lemma {:induction false} SplitJoin(lines: seq<string>)
    requires Tidy(lines)
    ensures ReadsBack(lines)
  {
    if lines != [] {
      assert Tidy(lines[1..]) by {
        forall k | 0 <= k < |lines[1..]| ensures lines[1..][k] == lines[k + 1] {}
      }
      SplitJoin(lines[1..]);
      FirstLine(lines[0], Join(lines[1..]));
      assert Join(lines)[|lines[0]|..] == Join(lines[1..]);
    }
  }

  function SplitContent(content: Option<string>): Option<seq<string>> {
    if content.Some? then Some(SplitLines(content.value)) else None
  }

  function ApplyText(content: Option<string>, fd: FileDiff): Result<Option<string>, ApplyError>
    requires AllWellformed(fd.hunks)
  {
    match ApplyFile(SplitContent(content), fd)
    case Err(e) => Err(e)
    case Ok(None) => Ok(None)
    case Ok(Some(lines)) => Ok(Some(Join(lines)))
  }

  lemma {:induction false} JoinEmpty(lines: seq<string>)
    ensures Join(lines) == "" <==> AllEmpty(lines)
  {
    if lines != [] {
      JoinEmpty(lines[1..]);
      assert AllEmpty(lines) <==> lines[0] == "" && AllEmpty(lines[1..]) by {
        if lines[0] == "" && AllEmpty(lines[1..]) {
          forall k | 0 <= k < |lines| ensures lines[k] == "" {
            if k > 0 { assert lines[k] == lines[1..][k - 1]; }
          }
        }
      }
      assert |Join(lines)| == |lines[0]| + |Join(lines[1..])|;
    }
  }

  /** On texts: a deletion goes through exactly when what its hunks leave, joined, is the empty text, and is refused as
      not removing the whole file exactly when it is not. */
  lemma DeletionOnText(content: Option<string>, fd: FileDiff)
    requires AllWellformed(fd.hunks) && fd.IsDeleted() && (fd.IsNew() <==> content.None?)
    ensures var left := ApplyLines(Lines(SplitContent(content)), fd.hunks);
      && (ApplyText(content, fd) == Ok(None) <==> left.Ok? && Join(left.value) == "")
      && (ApplyText(content, fd) == Err(NotWholeFile) <==> left.Ok? && Join(left.value) != "")
  {
    var left := ApplyLines(Lines(SplitContent(content)), fd.hunks);
    if left.Ok? { JoinEmpty(left.value); }
  }

  // ---- the way back on texts -------------------------------------------------------------------

  /** One line, with no boundary before its end. */
  predicate OneLine(line: string) { line != "" && LineLength(line) == |line| }

  predicate AllOneLine(lines: seq<string>) { forall line | line in lines :: OneLine(line) }

  lemma {:induction false} FirstIsOneLine(s: string)
    requires s != ""
    ensures OneLine(s[..LineLength(s)])
  {
    if !(s[0] == '\r' && |s| > 1 && s[1] == '\n') && !IsBreak(s[0]) && |s| > 1 {
      FirstIsOneLine(s[1..]);
      assert s[..LineLength(s)][1..] == s[1..][..LineLength(s[1..])];
    }
  }

  lemma {:induction false} SplitIsOneLine(s: string)
    ensures AllOneLine(SplitLines(s))
  {
    if s != "" {
      FirstIsOneLine(s);
      SplitIsOneLine(s[LineLength(s)..]);
    }
  }

  /** What follows a line leaves it alone, or its own first line runs on from it. */
  lemma {:induction false} RunsOn(line: string, rest: string)
    requires OneLine(line) && rest != ""
    ensures LineLength(line + rest) == |line| || LineLength(line + rest) == |line| + LineLength(rest)
  {
    if |line| > 1 && !(line[0] == '\r' && line[1] == '\n') {
      assert (line + rest)[1..] == line[1..] + rest;
      RunsOn(line[1..], rest);
    }
  }

  /** Reading back never finds more lines than were written, and when it finds as many they are the same. */
  lemma {:induction false} NoMoreLines(lines: seq<string>)
    requires AllOneLine(lines)
    ensures |SplitLines(Join(lines))| <= |lines| && (|SplitLines(Join(lines))| == |lines| ==> ReadsBack(lines))
  {
    if lines != [] {
      var line, rest := lines[0], Join(lines[1..]);
      NoMoreLines(lines[1..]);
      assert OneLine(line);
      if rest == "" {
        assert line + rest == line && line[|line|..] == "";
        assert SplitLines(line) == [line];
      } else {
        RunsOn(line, rest);
        var n := LineLength(line + rest);
        assert (line + rest)[n..] == rest[n - |line|..];
      }
    }
  }

  function Befores(edits: seq<Edit<string>>): nat { if edits == [] then 0 else |edits[0].before| + Befores(edits[1..]) }

  function Afters(edits: seq<Edit<string>>): nat { if edits == [] then 0 else |edits[0].after| + Afters(edits[1..]) }

  predicate Taken(edits: seq<Edit<string>>) { forall e | e in edits :: AllOneLine(e.before) }

  predicate Put(edits: seq<Edit<string>>) { forall e | e in edits :: AllOneLine(e.after) }

  /** The lines on the two sides of a splice: how many there are, and what they are made of. */
  lemma {:induction false} SpliceLines(src: seq<string>, i: nat, edits: seq<Edit<string>>, out: seq<string>, j: nat)
    requires IsSplice(src, i, edits, out, j) && AllOneLine(src)
    ensures i <= |src| && j <= |out| && |out| - j + Befores(edits) == |src| - i + Afters(edits)
    ensures Taken(edits) && (Put(edits) ==> AllOneLine(out[j..]))
    decreases edits
  {
    if edits == [] {
      assert |src[i..]| == |out[j..]|;
    } else {
      var e, rest := edits[0], edits[1..];
      SpliceLines(src, e.at + |e.before|, rest, out, e.landed + |e.after|);
      assert |src[i..e.at]| == |out[j..e.landed]|;
      assert edits == [e] + rest;
      assert src[e.at..e.at + |e.before|] == e.before;
      if Put(edits) {
        assert AllOneLine(out[j..e.landed]) by { assert out[j..e.landed] == src[i..e.at]; }
        assert AllOneLine(e.after) && Put(rest);
        OnePiece(out, j, e.landed, e.after);
      }
    }
  }

  /** The same edits the other way round, wherever they stand. */
  predicate Opposite(edits: seq<Edit<string>>, back: seq<Edit<string>>) {
    |edits| == |back| && forall k | 0 <= k < |edits| :: edits[k].before == back[k].after && edits[k].after == back[k].before
  }

  lemma {:induction false} OppositeSizes(edits: seq<Edit<string>>, back: seq<Edit<string>>)
    requires Opposite(edits, back)
    ensures Befores(edits) == Afters(back) && Afters(edits) == Befores(back)
  {
    if edits != [] { OppositeSizes(edits[1..], back[1..]); }
  }

  lemma TurnedRound(edits: seq<Edit<string>>, back: seq<Edit<string>>)
    requires Opposite(edits, back)
    ensures Opposite(back, edits)
  {}

  lemma TakenIsPut(edits: seq<Edit<string>>, back: seq<Edit<string>>)
    requires Opposite(edits, back) && Taken(edits)
    ensures Put(back)
  {
    hide AllOneLine;
    forall e | e in back ensures AllOneLine(e.after) {
      var k :| 0 <= k < |back| && back[k] == e;
      assert edits[k].before == e.after && edits[k] in edits;
    }
  }

  /** There and back: when the text that comes out is the old one, what was written in between read back. */
  lemma BackNeedsReading(src: seq<string>, edits: seq<Edit<string>>, written: seq<string>, read: seq<string>,
                         back: seq<Edit<string>>, out: seq<string>)
    requires IsSplice(src, 0, edits, written, 0) && IsSplice(read, 0, back, out, 0) && Opposite(edits, back)
    requires AllOneLine(src) && ReadsBack(src) && read == SplitLines(Join(written)) && Join(out) == Join(src)
    ensures ReadsBack(written)
  {
    hide IsSplice, Taken, Put, Befores, Afters, Opposite, Join;
    SplitIsOneLine(Join(written));
    OppositeSizes(edits, back);
    SpliceLines(src, 0, edits, written, 0);
    SpliceLines(read, 0, back, out, 0);
    assert Opposite(back, edits) by { TurnedRound(edits, back); }
    TakenIsPut(edits, back);
    TakenIsPut(back, edits);
    assert written[0..] == written && out[0..] == out;
    NoMoreLines(written);
    NoMoreLines(out);
  }

  lemma BackOnLines(src: seq<string>, hunks: seq<Hunk>, out: seq<string>)
    requires AllWellformed(hunks) && ApplyLines(src, hunks).Ok? && AllWellformed(Reverse(src, hunks))
    requires AllOneLine(src) && ReadsBack(src)
    requires ApplyLines(SplitLines(Join(ApplyLines(src, hunks).value)), Reverse(src, hunks)) == Ok(out) && Join(out) == Join(src)
    ensures ReadsBack(ApplyLines(src, hunks).value)
  {
    hide IsSplice, Edits, ReadsBack, AllOneLine, Join, SplitLines;
    var patches, written := PatchesOf(hunks), ApplyLines(src, hunks).value;
    var edits, read := Edits(src, patches), SplitLines(Join(written));
    ApplyIsSplice(src, patches);
    ReverseStatesLanding(hunks, edits);
    var stated := Stated(FlipEdits(edits));
    ApplyIsSplice(read, stated);
    var back := Edits(read, stated);
    forall k | 0 <= k < |edits| ensures edits[k].before == back[k].after && edits[k].after == back[k].before {
      assert back[k].before == stated[k].before && back[k].after == stated[k].after;
    }
    BackNeedsReading(src, edits, written, read, back, out);
  }

  lemma DeletionBack(content: Option<string>, fd: FileDiff)
    requires AllWellformed(fd.hunks) && ApplyText(content, fd).Ok? && fd.IsDeleted() && !AddsNothing(fd.hunks)
    ensures var back := ReverseFile(SplitContent(content), fd); AllWellformed(back.hunks) && ApplyText(None, back).Err?
  {
    RefusedOnEmpty(Lines(SplitContent(content)), fd.hunks);
  }

  /** The lines of a text, with none for no file. */
  lemma ReadContent(content: Option<string>)
    ensures var src := Lines(SplitContent(content));
      && AllOneLine(src) && ReadsBack(src) && Join(src) == if content.Some? then content.value else ""
  {
    if content.Some? {
      JoinSplit(content.value);
      SplitIsOneLine(content.value);
    }
  }

  lemma ChangeBack(content: Option<string>, fd: FileDiff)
    requires AllWellformed(fd.hunks) && ApplyText(content, fd).Ok? && !fd.IsDeleted()
    ensures var back := ReverseFile(SplitContent(content), fd);
      && AllWellformed(back.hunks)
      && (ApplyText(ApplyText(content, fd).value, back) == Ok(content) ==> ReadsBack(Lines(ApplyFile(SplitContent(content), fd).value)))
  {
    hide ApplyLines, Reverse, SplitLines, Join, ReadsBack, AllOneLine, AllEmpty;
    var src := Lines(SplitContent(content));
    ReverseUndoesLines(src, fd.hunks);
    var back := ReverseFile(SplitContent(content), fd);
    var written := ApplyLines(src, fd.hunks).value;
    var out := ApplyLines(SplitLines(Join(written)), back.hunks);
    ReadContent(content);
    if ApplyText(Some(Join(written)), back) == Ok(content) {
      if fd.IsNew() { JoinEmpty(out.value); }
      BackOnLines(src, fd.hunks, out.value);
    }
  }

  /** On texts: the reversed diff gives the old text back exactly when the lines that were written read back; after a
      deletion, exactly when it added nothing. */
  lemma ReverseUndoesText(content: Option<string>, fd: FileDiff)
    requires AllWellformed(fd.hunks) && ApplyText(content, fd).Ok?
    ensures var back := ReverseFile(SplitContent(content), fd);
      && AllWellformed(back.hunks)
      && (ApplyText(ApplyText(content, fd).value, back) == Ok(content)
          <==> if fd.IsDeleted() then AddsNothing(fd.hunks) else ReadsBack(Lines(ApplyFile(SplitContent(content), fd).value)))
  {
    hide SplitLines, Join, ApplyLines, Reverse, AddsNothing;
    var lines := SplitContent(content);
    if content.Some? { JoinSplit(content.value); }
    ReverseUndoesFile(lines, fd);
    var back := ReverseFile(lines, fd);
    if fd.IsDeleted() {
      if !AddsNothing(fd.hunks) { DeletionBack(content, fd); }
    } else if !ReadsBack(Lines(ApplyFile(lines, fd).value)) {
      ChangeBack(content, fd);
    }
  }
}
