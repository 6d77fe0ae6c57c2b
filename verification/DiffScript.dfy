/** Diffs as they are written: from kept, removed and added texts to hunk lines, and what applying them gives. */
module DiffScript {
  import opened Wrappers
  import opened Splice
  import opened Diffs
  import opened DiffLaws

  /** One text of the old file, the new file or both; `ended` when a newline follows it. */
  datatype Change =
    | Kept(text: string, ended: bool)
    | Gone(text: string, ended: bool)
    | New(text: string, ended: bool)

  function LineOf(c: Change): string { c.text + if c.ended then "\n" else "" }

  /** The lines the old file has, and those the new one has. */
  function OldLines(script: seq<Change>): seq<string> {
    if script == [] then []
    else OldLines(script[..|script| - 1]) + (if script[|script| - 1].New? then [] else [LineOf(script[|script| - 1])])
  }

  function NewLines(script: seq<Change>): seq<string> {
    if script == [] then []
    else NewLines(script[..|script| - 1]) + (if script[|script| - 1].Gone? then [] else [LineOf(script[|script| - 1])])
  }

  const NO_NEWLINE := "\\ No newline at end of file"

  function Prefix(c: Change): char { if c.Kept? then ' ' else if c.Gone? then '-' else '+' }

  /** How one text is written in a hunk: behind its prefix, with a marker line when no newline follows it. */
  function RawOf(c: Change): seq<string> { [[Prefix(c)] + c.text] + if c.ended then [] else [NO_NEWLINE] }

  function Written(script: seq<Change>): seq<string> {
    if script == [] then [] else Written(script[..|script| - 1]) + RawOf(script[|script| - 1])
  }

  /** The text itself does not end with a newline. */
  predicate Plain(c: Change) { c.text != "" ==> c.text[|c.text| - 1] != '\n' }

  predicate AllPlain(script: seq<Change>) { forall c | c in script :: Plain(c) }

  // ---- one hunk --------------------------------------------------------------------------------

  predicate AllHunkLines(lines: seq<string>) { forall raw | raw in lines :: HunkLine(raw) }

  lemma StripsOne(text: string)
    requires text != "" ==> text[|text| - 1] != '\n'
    ensures StripNewlines(text + "\n") == text
  {
    assert (text + "\n")[..|text|] == text;
  }

  lemma OneText(lines: seq<string>, c: Change)
    requires AllHunkLines(lines)
    ensures var raw := [Prefix(c)] + c.text;
      && HunkLine(raw)
      && SidesOf(lines + [raw]) == Sides(
          SidesOf(lines).before + (if c.New? then [] else [c.text + "\n"]),
          SidesOf(lines).after + (if c.Gone? then [] else [c.text + "\n"]), Prefix(c))
  {
    hide SidesOf, StripLast;
    var raw := [Prefix(c)] + c.text;
    assert raw[0] == Prefix(c) && raw[1..] == c.text;
    SidesSnoc(lines, raw);
    assert SidesOf(lines).before + [] == SidesOf(lines).before && SidesOf(lines).after + [] == SidesOf(lines).after;
  }

  lemma OneMarker(lines: seq<string>)
    requires AllHunkLines(lines)
    ensures HunkLine(NO_NEWLINE)
    ensures var s := SidesOf(lines);
      SidesOf(lines + [NO_NEWLINE]) == Sides(if OnOldSide(s.last) then StripLast(s.before) else s.before,
                                             if OnNewSide(s.last) then StripLast(s.after) else s.after, s.last)
  {
    hide SidesOf, StripLast;
    assert NO_NEWLINE[0] == '\\';
    SidesSnoc(lines, NO_NEWLINE);
  }

  /** Writing one more text. */
  lemma OneMore(lines: seq<string>, c: Change)
    requires AllHunkLines(lines) && Plain(c)
    ensures AllHunkLines(lines + RawOf(c))
    ensures var s := SidesOf(lines); var s' := SidesOf(lines + RawOf(c));
      && s'.before == s.before + (if c.New? then [] else [LineOf(c)])
      && s'.after == s.after + (if c.Gone? then [] else [LineOf(c)])
  {
    hide SidesOf, StripLast, HunkLine;
    var raw := [Prefix(c)] + c.text;
    OneText(lines, c);
    if c.ended {
      assert RawOf(c) == [raw];
    } else {
      OneMarker(lines + [raw]);
      assert lines + RawOf(c) == lines + [raw] + [NO_NEWLINE];
      assert c.text + "" == c.text;
      StripsLast(SidesOf(lines).before, c.text);
      StripsLast(SidesOf(lines).after, c.text);
    }
  }

  lemma StripsLast(lines: seq<string>, text: string)
    requires text != "" ==> text[|text| - 1] != '\n'
    ensures StripLast(lines + [text + "\n"]) == lines + [text]
  {
    StripsOne(text);
    assert (lines + [text + "\n"])[..|lines|] == lines;
  }

  /** What a hunk says of the two files: its old side are the kept and removed texts, its new side the kept and added
      ones, each with the newline it has. */
  lemma {:induction false} SidesAreTheScript(script: seq<Change>)
    requires AllPlain(script)
    ensures AllHunkLines(Written(script))
    ensures SidesOf(Written(script)).before == OldLines(script) && SidesOf(Written(script)).after == NewLines(script)
  {
    if script != [] {
      var front, c := script[..|script| - 1], script[|script| - 1];
      SidesAreTheScript(front);
      OneMore(Written(front), c);
    }
  }

  // ---- whole files -----------------------------------------------------------------------------

  /** Lines that stay outside a hunk, and the hunk after them. */
  datatype Piece = Piece(same: seq<string>, script: seq<Change>)

  function OldFile(pieces: seq<Piece>, tail: seq<string>): seq<string> {
    if pieces == [] then tail else pieces[0].same + OldLines(pieces[0].script) + OldFile(pieces[1..], tail)
  }

  function NewFile(pieces: seq<Piece>, tail: seq<string>): seq<string> {
    if pieces == [] then tail else pieces[0].same + NewLines(pieces[0].script) + NewFile(pieces[1..], tail)
  }

  /** Where the rest of the pieces begins in the two files. */
  function Next(p: Piece, i: nat, j: nat): (nat, nat) { (i + |p.same| + |OldLines(p.script)|, j + |p.same| + |NewLines(p.script)|) }

  /** A hunk is numbered by where it stands in the two files: an empty side by the line before it. */
  function HunkOf(p: Piece, i: nat, j: nat): Hunk {
    Hunk(Start(i + |p.same|, OldLines(p.script)), Start(j + |p.same|, NewLines(p.script)), Written(p.script))
  }

  function HunksOf(pieces: seq<Piece>, i: nat, j: nat): seq<Hunk> {
    if pieces == [] then []
    else
      var (at, landed) := Next(pieces[0], i, j);
      [HunkOf(pieces[0], i, j)] + HunksOf(pieces[1..], at, landed)
  }

  function EditsOf(pieces: seq<Piece>, i: nat, j: nat): seq<Edit<string>> {
    if pieces == [] then []
    else
      var p := pieces[0];
      var (at, landed) := Next(p, i, j);
      [Edit(i + |p.same|, OldLines(p.script), j + |p.same|, NewLines(p.script))] + EditsOf(pieces[1..], at, landed)
  }

  lemma FirstPiece(pieces: seq<Piece>, tail: seq<string>)
    requires pieces != []
    ensures var p, rest := pieces[0], pieces[1..];
      && OldFile(pieces, tail) == p.same + OldLines(p.script) + OldFile(rest, tail)
      && NewFile(pieces, tail) == p.same + NewLines(p.script) + NewFile(rest, tail)
  {
    hide OldLines, NewLines;
  }

  lemma FirstEdit(pieces: seq<Piece>, i: nat, j: nat)
    requires pieces != []
    ensures var p := pieces[0]; var (at, landed) := Next(p, i, j);
      EditsOf(pieces, i, j) == [Edit(i + |p.same|, OldLines(p.script), j + |p.same|, NewLines(p.script))] + EditsOf(pieces[1..], at, landed)
  {
    hide OldLines, NewLines;
  }

  lemma FirstHunk(pieces: seq<Piece>, i: nat, j: nat)
    requires pieces != []
    ensures var p := pieces[0]; var (at, landed) := Next(p, i, j);
      HunksOf(pieces, i, j) == [HunkOf(p, i, j)] + HunksOf(pieces[1..], at, landed)
  {
    hide OldLines, NewLines, Written, Start;
  }

  predicate AllWritten(pieces: seq<Piece>) { forall p | p in pieces :: AllPlain(p.script) }

  /** One piece of each file, and the rest of both. */
  lemma PieceSplice(src: seq<string>, i: nat, same: seq<string>, was: seq<string>, more: seq<string>,
                    out: seq<string>, j: nat, now: seq<string>, more': seq<string>, at: nat, landed: nat)
    requires i <= |src| && j <= |out| && src[i..] == same + was + more && out[j..] == same + now + more'
    requires at == i + |same| + |was| && landed == j + |same| + |now|
    ensures at <= |src| && landed <= |out| && src[at..] == more && out[landed..] == more'
    ensures forall edits :: IsSplice(src, at, edits, out, landed) ==>
      IsSplice(src, i, [Edit(i + |same|, was, j + |same|, now)] + edits, out, j)
  {
    hide IsSplice;
    ThreeParts(src, i, same, was, more);
    ThreeParts(out, j, same, now, more');
    forall edits | IsSplice(src, at, edits, out, landed)
      ensures IsSplice(src, i, [Edit(i + |same|, was, j + |same|, now)] + edits, out, j)
    {
      SpliceCons(src, i, Edit(i + |same|, was, j + |same|, now), edits, out, j);
    }
  }

  lemma OnePieceMore(pieces: seq<Piece>, tail: seq<string>, src: seq<string>, i: nat, out: seq<string>, j: nat)
    requires pieces != [] && i <= |src| && j <= |out| && src[i..] == OldFile(pieces, tail) && out[j..] == NewFile(pieces, tail)
    ensures var p := pieces[0]; var was, now := OldLines(p.script), NewLines(p.script); var (at, landed) := Next(p, i, j);
      && at <= |src| && landed <= |out|
      && src[at..] == OldFile(pieces[1..], tail) && out[landed..] == NewFile(pieces[1..], tail)
      && forall edits :: IsSplice(src, at, edits, out, landed) ==>
        IsSplice(src, i, [Edit(i + |p.same|, was, j + |p.same|, now)] + edits, out, j)
  {
    hide IsSplice, OldLines, NewLines, OldFile, NewFile;
    FirstPiece(pieces, tail);
    var p, rest := pieces[0], pieces[1..];
    var (at, landed) := Next(p, i, j);
    PieceSplice(src, i, p.same, OldLines(p.script), OldFile(rest, tail), out, j, NewLines(p.script), NewFile(rest, tail), at, landed);
  }

  lemma {:induction false} PiecesSplice(pieces: seq<Piece>, tail: seq<string>, src: seq<string>, i: nat, out: seq<string>, j: nat)
    requires i <= |src| && j <= |out| && src[i..] == OldFile(pieces, tail) && out[j..] == NewFile(pieces, tail)
    ensures IsSplice(src, i, EditsOf(pieces, i, j), out, j)
    decreases |pieces|
  {
    if pieces != [] {
      hide IsSplice, OldLines, NewLines, OldFile, NewFile, EditsOf;
      var (at, landed) := Next(pieces[0], i, j);
      OnePieceMore(pieces, tail, src, i, out, j);
      FirstEdit(pieces, i, j);
      PiecesSplice(pieces[1..], tail, src, at, out, landed);
    }
  }

  lemma ThreeParts(src: seq<string>, i: nat, a: seq<string>, b: seq<string>, c: seq<string>)
    requires i <= |src| && src[i..] == a + b + c
    ensures i + |a| + |b| <= |src| && src[i..i + |a|] == a && src[i + |a|..i + |a| + |b|] == b && src[i + |a| + |b|..] == c
  {
    assert src[i..][..|a|] == a && src[i..][|a|..|a| + |b|] == b && src[i..][|a| + |b|..] == c;
  }

  lemma HunkStates(p: Piece, i: nat, j: nat)
    requires AllPlain(p.script)
    ensures Wellformed(HunkOf(p, i, j)) && PatchOf(HunkOf(p, i, j)) == Patch(i + |p.same|, OldLines(p.script), NewLines(p.script))
  {
    hide SidesOf, Written, OldLines, NewLines;
    SidesAreTheScript(p.script);
  }

  lemma PatchesNext(h: Hunk, hunks: seq<Hunk>)
    requires Wellformed(h) && AllWellformed(hunks)
    ensures AllWellformed([h] + hunks) && PatchesOf([h] + hunks) == [PatchOf(h)] + PatchesOf(hunks)
  {
    assert ([h] + hunks)[1..] == hunks;
  }

  lemma StatedNext(e: Edit<string>, edits: seq<Edit<string>>)
    ensures Stated([e] + edits) == [Patch(e.at, e.before, e.after)] + Stated(edits)
  {
    assert ([e] + edits)[1..] == edits;
  }

  predicate AreStated(hunks: seq<Hunk>, edits: seq<Edit<string>>) { AllWellformed(hunks) && PatchesOf(hunks) == Stated(edits) }

  lemma OneHunkMore(pieces: seq<Piece>, i: nat, j: nat)
    requires pieces != [] && AllPlain(pieces[0].script)
    ensures var (at, landed) := Next(pieces[0], i, j);
      AreStated(HunksOf(pieces[1..], at, landed), EditsOf(pieces[1..], at, landed)) ==> AreStated(HunksOf(pieces, i, j), EditsOf(pieces, i, j))
  {
    hide Wellformed, PatchOf, PatchesOf, Stated, OldLines, NewLines, AllPlain, HunkOf, HunksOf, EditsOf, AllWellformed;
    FirstHunk(pieces, i, j);
    FirstEdit(pieces, i, j);
    var p, rest := pieces[0], pieces[1..];
    var (at, landed) := Next(p, i, j);
    HunkStates(p, i, j);
    if AreStated(HunksOf(rest, at, landed), EditsOf(rest, at, landed)) {
      PatchesNext(HunkOf(p, i, j), HunksOf(rest, at, landed));
      StatedNext(Edit(i + |p.same|, OldLines(p.script), j + |p.same|, NewLines(p.script)), EditsOf(rest, at, landed));
    }
  }

  lemma {:induction false} HunksAreStated(pieces: seq<Piece>, i: nat, j: nat)
    requires AllWritten(pieces)
    ensures AreStated(HunksOf(pieces, i, j), EditsOf(pieces, i, j))
    decreases |pieces|
  {
    if pieces != [] {
      hide AreStated, HunksOf, EditsOf, AllPlain, OldLines, NewLines;
      var (at, landed) := Next(pieces[0], i, j);
      assert pieces[0] in pieces;
      HunksAreStated(pieces[1..], at, landed);
      OneHunkMore(pieces, i, j);
    }
  }

  /** A diff that is written from the old file to the new one, whatever it keeps, removes and adds and wherever it cuts the
      files into hunks, applies to the old file and gives the new one. */
  lemma WrittenDiffApplies(pieces: seq<Piece>, tail: seq<string>)
    requires AllWritten(pieces)
    ensures var hunks := HunksOf(pieces, 0, 0);
      AllWellformed(hunks) && ApplyLines(OldFile(pieces, tail), hunks) == Ok(NewFile(pieces, tail))
  {
    var src, out, edits := OldFile(pieces, tail), NewFile(pieces, tail), EditsOf(pieces, 0, 0);
    assert src[0..] == src && out[0..] == out;
    PiecesSplice(pieces, tail, src, 0, out, 0);
    HunksAreStated(pieces, 0, 0);
    StatedLinesApply(src, edits, out);
  }

  // ---- any two files ---------------------------------------------------------------------------

  /** A line as a text has it: at most one newline, at its end. */
  predicate IsLine(line: string) { line != "" ==> '\n' !in line[..|line| - 1] }

  predicate AllLines(lines: seq<string>) { forall line | line in lines :: IsLine(line) }

  function Ended(line: string): bool { line != "" && line[|line| - 1] == '\n' }

  function TextOf(line: string): string { if Ended(line) then line[..|line| - 1] else line }

  /** Everything goes, and everything comes. */
  function AllGone(lines: seq<string>): seq<Change> {
    if lines == [] then []
    else AllGone(lines[..|lines| - 1]) + [Gone(TextOf(lines[|lines| - 1]), Ended(lines[|lines| - 1]))]
  }

  function ThenAllNew(script: seq<Change>, lines: seq<string>): seq<Change> {
    if lines == [] then script
    else ThenAllNew(script, lines[..|lines| - 1]) + [New(TextOf(lines[|lines| - 1]), Ended(lines[|lines| - 1]))]
  }

  lemma TextIsPlain(line: string)
    requires IsLine(line)
    ensures (TextOf(line) != "" ==> TextOf(line)[|TextOf(line)| - 1] != '\n') && TextOf(line) + (if Ended(line) then "\n" else "") == line
  {
    if Ended(line) {
      assert line == line[..|line| - 1] + [line[|line| - 1]];
      if |line| > 1 { assert line[|line| - 2] in line[..|line| - 1]; }
    }
  }

  lemma ScriptNext(script: seq<Change>, c: Change)
    ensures OldLines(script + [c]) == OldLines(script) + (if c.New? then [] else [LineOf(c)])
    ensures NewLines(script + [c]) == NewLines(script) + (if c.Gone? then [] else [LineOf(c)])
    ensures AllPlain(script + [c]) <==> AllPlain(script) && Plain(c)
  {
    assert (script + [c])[..|script|] == script;
    assert c in script + [c];
  }

  lemma {:induction false} AllGoneIs(lines: seq<string>)
    requires AllLines(lines)
    ensures AllPlain(AllGone(lines)) && OldLines(AllGone(lines)) == lines && NewLines(AllGone(lines)) == []
  {
    if lines != [] {
      hide OldLines, NewLines, AllPlain, IsLine, TextOf, Ended;
      var front, line := lines[..|lines| - 1], lines[|lines| - 1];
      assert line in lines && lines == front + [line];
      AllGoneIs(front);
      TextIsPlain(line);
      ScriptNext(AllGone(front), Gone(TextOf(line), Ended(line)));
    }
  }

  lemma {:induction false} ThenAllNewIs(script: seq<Change>, lines: seq<string>)
    requires AllLines(lines) && AllPlain(script)
    ensures var all := ThenAllNew(script, lines);
      AllPlain(all) && OldLines(all) == OldLines(script) && NewLines(all) == NewLines(script) + lines
  {
    if lines == [] {
      assert NewLines(script) + [] == NewLines(script);
    } else {
      hide OldLines, NewLines, AllPlain, IsLine, TextOf, Ended;
      var front, line := lines[..|lines| - 1], lines[|lines| - 1];
      assert line in lines && lines == front + [line];
      ThenAllNewIs(script, front);
      TextIsPlain(line);
      ScriptNext(ThenAllNew(script, front), New(TextOf(line), Ended(line)));
      assert NewLines(script) + front + [line] == NewLines(script) + lines;
    }
  }

  /** Between any two files there is a diff that applies. */
  lemma AnyTwoFiles(was: seq<string>, now: seq<string>)
    requires AllLines(was) && AllLines(now)
    ensures exists hunks :: AllWellformed(hunks) && ApplyLines(was, hunks) == Ok(now)
  {
    hide OldLines, NewLines, HunksOf, ApplyLines;
    var script := ThenAllNew(AllGone(was), now);
    AllGoneIs(was);
    ThenAllNewIs(AllGone(was), now);
    var pieces := [Piece([], script)];
    assert pieces[1..] == [] && [] + was + [] == was && [] + now == now && [] + now + [] == now;
    WrittenDiffApplies(pieces, []);
  }
}
