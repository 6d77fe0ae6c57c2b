/** What the diff promises: an exact splice, a predictable line count, and a way back. */
module DiffLaws {
  import opened Wrappers
  import opened Splice
  import opened Diffs

  // ---- line counts -----------------------------------------------------------------------------

  /** A hunk's two sides are as long as its prefixes say; "No newline" markers count for nothing. */
  lemma {:induction false} SideCounts(lines: seq<string>)
    requires forall raw | raw in lines :: HunkLine(raw)
    ensures |SidesOf(lines).before| == CountPrefix(lines, OnOldSide)
    ensures |SidesOf(lines).after| == CountPrefix(lines, OnNewSide)
    ensures CountPrefix(lines, OnNewSide) - CountPrefix(lines, OnOldSide)
         == CountPrefix(lines, IsPlus) - CountPrefix(lines, IsMinus)
  {
    if lines != [] {
      SideCounts(lines[..|lines| - 1]);
      assert HunkLine(lines[|lines| - 1]);
    }
  }

  lemma {:induction false} SpliceGrows(src: seq<string>, i: nat, hunks: seq<Hunk>, edits: seq<Edit<string>>, out: seq<string>, j: nat)
    requires AllWellformed(hunks) && Carry(PatchesOf(hunks), edits) && IsSplice(src, i, edits, out, j)
    ensures |out| - j == |src| - i + Net(hunks)
    decreases edits
  {
    if edits == [] {
      assert |src[i..]| == |out[j..]|;
    } else {
      var e := edits[0];
      assert PatchesOf(hunks)[1..] == PatchesOf(hunks[1..]);
      SpliceGrows(src, e.at + |e.before|, hunks[1..], edits[1..], out, e.landed + |e.after|);
      assert Wellformed(hunks[0]);
      SideCounts(hunks[0].lines);
      assert |src[i..e.at]| == |out[j..e.landed]|;
    }
  }

  /** The line count changes by exactly what the hunks' prefixes add and remove. */
  lemma ApplyChangesLineCount(src: seq<string>, hunks: seq<Hunk>, out: seq<string>)
    requires AllWellformed(hunks) && ApplyLines(src, hunks) == Ok(out)
    ensures |out| == |src| + Net(hunks)
  {
    var patches := PatchesOf(hunks);
    ApplyIsSplice(src, patches);
    SpliceGrows(src, 0, hunks, Edits(src, patches), out, 0);
  }

  // ---- the reversed diff -----------------------------------------------------------------------

  function FlipLine(raw: string): string {
    if raw != "" && raw[0] == '+' then "-" + raw[1..]
    else if raw != "" && raw[0] == '-' then "+" + raw[1..]
    else raw
  }

  function FlipLines(lines: seq<string>): seq<string> {
    if lines == [] then [] else FlipLines(lines[..|lines| - 1]) + [FlipLine(lines[|lines| - 1])]
  }

  /** An empty side is numbered by the line before it, any other by its first line. */
  function Start(at: nat, lines: seq<string>): nat { if lines == [] then at else at + 1 }

  /** The hunk that turns the edit round, numbered by where the edit landed. */
  function ReverseHunk(h: Hunk, e: Edit<string>): Hunk {
    Hunk(Start(e.landed, e.after), Start(e.at, e.before), FlipLines(h.lines))
  }

  function ReverseHunks(hunks: seq<Hunk>, edits: seq<Edit<string>>): seq<Hunk>
    requires |edits| == |hunks|
  {
    if hunks == [] then [] else [ReverseHunk(hunks[0], edits[0])] + ReverseHunks(hunks[1..], edits[1..])
  }

  /** The hunks of an applied diff, turned round and renumbered to where they landed. */
  function Reverse(src: seq<string>, hunks: seq<Hunk>): seq<Hunk>
    requires AllWellformed(hunks) && ApplyLines(src, hunks).Ok?
  {
    ApplyIsSplice(src, PatchesOf(hunks));
    ReverseHunks(hunks, Edits(src, PatchesOf(hunks)))
  }

  function FlipPrefix(c: char): char { if c == '+' then '-' else if c == '-' then '+' else c }

  function Mirror(s: Sides): Sides { Sides(s.after, s.before, FlipPrefix(s.last)) }

  lemma AbsorbMirrors(s: Sides, raw: string)
    requires HunkLine(raw) && (s.last == '+' || OnOldSide(s.last))
    ensures HunkLine(FlipLine(raw)) && Absorb(Mirror(s), FlipLine(raw)) == Mirror(Absorb(s, raw))
  {
    assert FlipLine(raw)[1..] == raw[1..];
  }

  lemma {:induction false} LastIsPrefix(lines: seq<string>)
    requires forall raw | raw in lines :: HunkLine(raw)
    ensures SidesOf(lines).last == '+' || OnOldSide(SidesOf(lines).last)
  {
    if lines != [] {
      LastIsPrefix(lines[..|lines| - 1]);
      assert HunkLine(lines[|lines| - 1]);
    }
  }

  /** Swapping the prefixes swaps the sides, markers included. */
  lemma {:induction false} FlipSwapsSides(lines: seq<string>)
    requires forall raw | raw in lines :: HunkLine(raw)
    ensures forall raw | raw in FlipLines(lines) :: HunkLine(raw)
    ensures SidesOf(FlipLines(lines)) == Mirror(SidesOf(lines))
  {
    if lines != [] {
      var init, raw := lines[..|lines| - 1], lines[|lines| - 1];
      FlipSwapsSides(init);
      LastIsPrefix(init);
      assert HunkLine(raw);
      AbsorbMirrors(SidesOf(init), raw);
      var flipped := FlipLines(lines);
      assert flipped[..|flipped| - 1] == FlipLines(init) && flipped[|flipped| - 1] == FlipLine(raw);
    }
  }

  lemma {:induction false} ReverseStatesLanding(hunks: seq<Hunk>, edits: seq<Edit<string>>)
    requires AllWellformed(hunks) && Carry(PatchesOf(hunks), edits)
    ensures AllWellformed(ReverseHunks(hunks, edits))
    ensures PatchesOf(ReverseHunks(hunks, edits)) == Stated(FlipEdits(edits))
  {
    if hunks != [] {
      var h, e, back := hunks[0], edits[0], ReverseHunks(hunks, edits);
      assert Wellformed(h);
      FlipSwapsSides(h.lines);
      assert PatchOf(ReverseHunk(h, e)) == Patch(e.landed, e.after, e.before);
      assert PatchesOf(hunks)[1..] == PatchesOf(hunks[1..]);
      ReverseStatesLanding(hunks[1..], edits[1..]);
      assert back[1..] == ReverseHunks(hunks[1..], edits[1..]);
      assert FlipEdits(edits)[1..] == FlipEdits(edits[1..]);
    }
  }

  /** Reversing a diff undoes it: offsets, empty sides and "No newline" markers included. */
  lemma ReverseUndoesLines(src: seq<string>, hunks: seq<Hunk>)
    requires AllWellformed(hunks) && ApplyLines(src, hunks).Ok?
    ensures AllWellformed(Reverse(src, hunks))
    ensures ApplyLines(ApplyLines(src, hunks).value, Reverse(src, hunks)) == Ok(src)
  {
    var patches := PatchesOf(hunks);
    ApplyIsSplice(src, patches);
    ReverseStatesLanding(hunks, Edits(src, patches));
    FlippedUndoes(src, patches);
  }

  // ---- whole files -----------------------------------------------------------------------------

  /** The lines of a file as `splitlines` gives them: none is empty. */
  ghost predicate NoEmptyLine(content: Option<seq<string>>) {
    content.Some? ==> forall line | line in content.value :: line != ""
  }

  function Lines(content: Option<seq<string>>): seq<string> { if content.Some? then content.value else [] }

  /** The diff that turns the file diff round, for the contents it was applied to. */
  function ReverseFile(content: Option<seq<string>>, fd: FileDiff): FileDiff
    requires AllWellformed(fd.hunks) && ApplyFile(content, fd).Ok?
  {
    FileDiff(fd.newPath, fd.oldPath, Reverse(Lines(content), fd.hunks))
  }

  /** No hunk leaves a line behind. */
  predicate AddsNothing(hunks: seq<Hunk>)
    requires AllWellformed(hunks)
  {
    forall h | h in hunks :: After(h) == []
  }

  lemma {:induction false} SpliceKeepsAfter(src: seq<string>, i: nat, edits: seq<Edit<string>>, out: seq<string>, j: nat)
    requires IsSplice(src, i, edits, out, j)
    ensures out[j..] == [] ==> forall k | 0 <= k < |edits| :: edits[k].after == []
    ensures (forall k | 0 <= k < |edits| :: edits[k].after == []) ==> forall line | line in out[j..] :: line in src
    decreases edits
  {
    if edits != [] {
      var e := edits[0];
      SpliceKeepsAfter(src, e.at + |e.before|, edits[1..], out, e.landed + |e.after|);
      OnePiece(out, j, e.landed, e.after);
    }
  }

  lemma {:induction false} NothingFitsInEmpty(patches: seq<Patch<string>>, ats: seq<nat>, cursor: nat)
    requires Fits([], patches, ats, cursor)
    ensures forall k | 0 <= k < |patches| :: patches[k].before == []
    decreases patches
  {
    if patches != [] { NothingFitsInEmpty(patches[1..], ats[1..], ats[0] + |patches[0].before|); }
  }

  lemma {:induction false} PatchesInOrder(hunks: seq<Hunk>, k: nat)
    requires AllWellformed(hunks) && k < |hunks|
    ensures PatchesOf(hunks)[k] == PatchOf(hunks[k])
  {
    if k > 0 { PatchesInOrder(hunks[1..], k - 1); }
  }

  /** A deletion that leaves nothing behind really leaves no line; one that adds a line leaves an empty one. */
  lemma DeletionLeaves(src: seq<string>, hunks: seq<Hunk>)
    requires AllWellformed(hunks) && ApplyLines(src, hunks).Ok? && AllEmpty(ApplyLines(src, hunks).value)
    requires forall line | line in src :: line != ""
    ensures ApplyLines(src, hunks).value == [] <==> AddsNothing(hunks)
  {
    var patches, out := PatchesOf(hunks), ApplyLines(src, hunks).value;
    var edits := Edits(src, patches);
    ApplyIsSplice(src, patches);
    SpliceKeepsAfter(src, 0, edits, out, 0);
    assert out[0..] == out;
    forall k | 0 <= k < |hunks| ensures edits[k].after == After(hunks[k]) { PatchesInOrder(hunks, k); }
    if out != [] { assert out[0] == "" && out[0] in out; }
  }

  lemma RefusedOnEmpty(src: seq<string>, hunks: seq<Hunk>)
    requires AllWellformed(hunks) && ApplyLines(src, hunks).Ok? && !AddsNothing(hunks)
    ensures AllWellformed(Reverse(src, hunks)) && ApplyLines([], Reverse(src, hunks)).Err?
  {
    ReverseUndoesLines(src, hunks);
    var patches := PatchesOf(hunks);
    var edits, back := Edits(src, patches), PatchesOf(Reverse(src, hunks));
    ApplyIsSplice(src, patches);
    ReverseStatesLanding(hunks, edits);
    if ApplyLines([], Reverse(src, hunks)).Ok? {
      var ats := Places([], back, 0, 1).value;
      PlacesFit([], back, 0, 1, ats);
      NothingFitsInEmpty(back, ats, 0);
      forall h | h in hunks ensures After(h) == [] {
        var k :| 0 <= k < |hunks| && hunks[k] == h;
        PatchesInOrder(hunks, k);
        assert back[k].before == edits[k].after == patches[k].after;
      }
      assert false;
    }
  }

  /** Reversing an applied file diff undoes it, file creation and deletion included, with one exception: a deletion
      that adds a line. It can succeed, because an added line may be empty, but its reversal starts from no file. */
  lemma ReverseUndoesFile(content: Option<seq<string>>, fd: FileDiff)
    requires AllWellformed(fd.hunks) && NoEmptyLine(content) && ApplyFile(content, fd).Ok?
    ensures AllWellformed(ReverseFile(content, fd).hunks)
    ensures ApplyFile(ApplyFile(content, fd).value, ReverseFile(content, fd)) == Ok(content)
      <==> (fd.IsDeleted() ==> AddsNothing(fd.hunks))
  {
    var src := Lines(content);
    ReverseUndoesLines(src, fd.hunks);
    if fd.IsDeleted() {
      DeletionLeaves(src, fd.hunks);
      if !AddsNothing(fd.hunks) { RefusedOnEmpty(src, fd.hunks); }
    }
  }

  /** Replaces a line "a" by an empty line without a newline. */
  const EMPTYING := Hunk(1, 1, ["-a", "+", "\\ No newline at end of file"])

  lemma EmptyingSides()
    ensures Wellformed(EMPTYING) && Before(EMPTYING) == ["a\n"] && After(EMPTYING) == [""]
  {
    var lines, marker := EMPTYING.lines, EMPTYING.lines[2];
    assert marker[0] == '\\';
    assert lines == [] + ["-a"] + ["+"] + [marker];
    SidesSnoc([], "-a");
    SidesSnoc([] + ["-a"], "+");
    SidesSnoc([] + ["-a"] + ["+"], marker);
    assert "-a"[1..] + "\n" == "a\n" && "+"[1..] + "\n" == "\n";
    assert StripNewlines("\n") == StripNewlines("");
  }

  /** The exception exists: a deletion of a one-line file that adds an empty line without a newline. */
  lemma DeletionThatAddsALine()
    ensures AllWellformed([EMPTYING]) && !AddsNothing([EMPTYING])
    ensures ApplyFile(Some(["a\n"]), FileDiff(Some("f"), None, [EMPTYING])) == Ok(None)
  {
    EmptyingSides();
    var h := EMPTYING;
    assert h in [h];
    assert PatchesOf([h]) == [Patch(0, ["a\n"], [""])];
    ReplaceOnlyLine("a\n", "");
  }

  lemma SidesSnoc(lines: seq<string>, raw: string)
    requires HunkLine(raw) && forall line | line in lines :: HunkLine(line)
    ensures SidesOf(lines + [raw]) == Absorb(SidesOf(lines), raw)
  {
    assert (lines + [raw])[..|lines|] == lines;
  }
}
