/** Unified diffs as structured values, and the strict applier. */
module Diffs {
  import opened Wrappers
  import opened Splice

  /** One hunk; every line keeps its one-character prefix, or starts with a backslash for "No newline at end". */
  datatype Hunk = Hunk(oldStart: nat, newStart: nat, lines: seq<string>)

  /** `None` stands for /dev/null: no old side for a new file, no new side for a deleted one. */
  datatype FileDiff = FileDiff(oldPath: Option<string>, newPath: Option<string>, hunks: seq<Hunk>) {
    predicate IsNew() { oldPath.None? }
    predicate IsDeleted() { newPath.None? }
    predicate IsRename() { oldPath.Some? && newPath.Some? && oldPath != newPath }
    function Path(): string {
      if newPath.Some? && newPath.value != "" then newPath.value else if oldPath.Some? then oldPath.value else ""
    }
  }

  /** What the parser guarantees about every line it puts into a hunk. */
  predicate HunkLine(raw: string) { raw != "" && (OnOldSide(raw[0]) || OnNewSide(raw[0]) || raw[0] == '\\') }

  predicate OnOldSide(prefix: char) { prefix == ' ' || prefix == '-' }

  predicate OnNewSide(prefix: char) { prefix == ' ' || prefix == '+' }

  predicate Wellformed(h: Hunk) { forall raw | raw in h.lines :: HunkLine(raw) }

  predicate AllWellformed(hunks: seq<Hunk>) { forall h | h in hunks :: Wellformed(h) }

  // ---- counts ---------------------------------------------------------------------------------

  function CountPrefix(lines: seq<string>, counts: char -> bool): nat {
    if lines == [] then 0
    else CountPrefix(lines[..|lines| - 1], counts)
         + (if lines[|lines| - 1] != "" && counts(lines[|lines| - 1][0]) then 1 else 0)
  }

  predicate IsPlus(prefix: char) { prefix == '+' }

  predicate IsMinus(prefix: char) { prefix == '-' }

  function Added(h: Hunk): nat { CountPrefix(h.lines, IsPlus) }

  function Removed(h: Hunk): nat { CountPrefix(h.lines, IsMinus) }

  function OldCount(h: Hunk): nat { CountPrefix(h.lines, OnOldSide) }

  function NewCount(h: Hunk): nat { CountPrefix(h.lines, OnNewSide) }

  /** Lines added minus lines removed by a list of hunks; negative means the file shrinks. */
  function Net(hunks: seq<Hunk>): int {
    if hunks == [] then 0 else Added(hunks[0]) - Removed(hunks[0]) + Net(hunks[1..])
  }

  function Changed(hunks: seq<Hunk>): nat {
    if hunks == [] then 0 else Added(hunks[0]) + Removed(hunks[0]) + Changed(hunks[1..])
  }

  // ---- the two sides of a hunk ----------------------------------------------------------------

  /** The old and new lines seen so far, and the prefix of the last line that had one. */
  datatype Sides = Sides(before: seq<string>, after: seq<string>, last: char)

  function StripNewlines(s: string): string {
    if s != "" && s[|s| - 1] == '\n' then StripNewlines(s[..|s| - 1]) else s
  }

  function StripLast(lines: seq<string>): seq<string> {
    if lines == [] then [] else lines[..|lines| - 1] + [StripNewlines(lines[|lines| - 1])]
  }

  function Absorb(s: Sides, raw: string): Sides
    requires HunkLine(raw)
  {
    if raw[0] == '\\' then
      Sides(if OnOldSide(s.last) then StripLast(s.before) else s.before,
            if OnNewSide(s.last) then StripLast(s.after) else s.after, s.last)
    else
      var body := [raw[1..] + "\n"];
      Sides(if OnOldSide(raw[0]) then s.before + body else s.before,
            if OnNewSide(raw[0]) then s.after + body else s.after, raw[0])
  }

  function SidesOf(lines: seq<string>): Sides
    requires forall raw | raw in lines :: HunkLine(raw)
  {
    if lines == [] then Sides([], [], ' ')
    else Absorb(SidesOf(lines[..|lines| - 1]), lines[|lines| - 1])
  }

  function Before(h: Hunk): seq<string>
    requires Wellformed(h)
  {
    SidesOf(h.lines).before
  }

  function After(h: Hunk): seq<string>
    requires Wellformed(h)
  {
    SidesOf(h.lines).after
  }

  method HunkLines(h: Hunk) returns (before: seq<string>, after: seq<string>)
    requires Wellformed(h)
    ensures before == Before(h) && after == After(h)
  {
    before, after := [], [];
    var last := ' ';
    for i := 0 to |h.lines|
      invariant Sides(before, after, last) == SidesOf(h.lines[..i])
    {
      assert h.lines[..i + 1][..i] == h.lines[..i];
      var raw := h.lines[i];
      assert HunkLine(raw);
      if raw[0] == '\\' {
        if OnOldSide(last) { before := StripLast(before); }
        if OnNewSide(last) { after := StripLast(after); }
      } else {
        last := raw[0];
        if OnOldSide(last) { before := before + [raw[1..] + "\n"]; }
        if OnNewSide(last) { after := after + [raw[1..] + "\n"]; }
      }
    }
    assert h.lines[..|h.lines|] == h.lines;
  }

  // ---- applying --------------------------------------------------------------------------------

  datatype ApplyError = Refused(problem: Problem) | AlreadyExists | Missing | NotWholeFile

  /** What the applier uses of a hunk. An empty old side is numbered by the line before it. */
  function PatchOf(h: Hunk): Patch<string>
    requires Wellformed(h)
  {
    Patch(if Before(h) != [] then (if h.oldStart == 0 then 0 else h.oldStart - 1) else h.oldStart, Before(h), After(h))
  }

  function PatchesOf(hunks: seq<Hunk>): (r: seq<Patch<string>>)
    requires AllWellformed(hunks)
    ensures |r| == |hunks|
  {
    if hunks == [] then [] else [PatchOf(hunks[0])] + PatchesOf(hunks[1..])
  }

  function ApplyLines(src: seq<string>, hunks: seq<Hunk>): Result<seq<string>, Problem>
    requires AllWellformed(hunks)
  {
    Splice.Apply(src, PatchesOf(hunks))
  }

  /** One round of the applier: place the hunk, write what lies before it and its new lines, move the cursor. */
  method PutHunk(src: seq<string>, h: Hunk, cursor: nat, n: nat, out: seq<string>, ghost todo: seq<Patch<string>>)
    returns (r: Result<(seq<string>, nat), Problem>)
    requires Wellformed(h) && todo != [] && todo[0] == PatchOf(h)
    ensures Continue(src, todo, cursor, n, out) == match r
      case Err(e) => Err(e)
      case Ok((out', cursor')) => Continue(src, todo[1..], cursor', n + 1, out')
  {
    ContinueOne(src, todo, cursor, n, out);
    var before, after := HunkLines(h);
    var want := if before != [] then (if h.oldStart == 0 then 0 else h.oldStart - 1) else h.oldStart;
    var at := FindPlace(src, cursor, want, before, after);
    match at
    case Err(several) => return Err(if several then SeveralMatches(n) else NoMatch(n));
    case Ok(k) => return Ok((out + Cut(src, cursor, k) + after, k + |before|));
  }

  /** The applier: a cursor moves over the file and the output grows hunk by hunk. */
  method ApplyHunks(src: seq<string>, hunks: seq<Hunk>) returns (r: Result<seq<string>, Problem>)
    requires AllWellformed(hunks)
    ensures r == ApplyLines(src, hunks)
  {
    var out: seq<string>, cursor: nat := [], 0;
    ghost var todo := PatchesOf(hunks);
    assert hunks[0..] == hunks;
    ContinueAll(src, todo);
    for i := 0 to |hunks|
      invariant todo == PatchesOf(hunks[i..])
      invariant ApplyLines(src, hunks) == Continue(src, todo, cursor, i + 1, out)
    {
      assert hunks[i..][0] == hunks[i] && hunks[i..][1..] == hunks[i + 1..];
      var put := PutHunk(src, hunks[i], cursor, i + 1, out, todo);
      if put.Err? { return Err(put.error); }
      out, cursor, todo := put.value.0, put.value.1, todo[1..];
    }
    r := Ok(out + src[Clamp(src, cursor)..]);
  }

  /** One file; `None` is a file that does not exist. Contents are lists of lines that keep their newlines. */
  function ApplyFile(content: Option<seq<string>>, fd: FileDiff): Result<Option<seq<string>>, ApplyError>
    requires AllWellformed(fd.hunks)
  {
    if fd.IsNew() && content.Some? then Err(AlreadyExists)
    else if !fd.IsNew() && content.None? then Err(Missing)
    else
      match ApplyLines(if content.Some? then content.value else [], fd.hunks)
      case Err(e) => Err(Refused(e))
      case Ok(lines) =>
        if !fd.IsDeleted() then Ok(Some(lines))
        else if AllEmpty(lines) then Ok(None)
        else Err(NotWholeFile)
  }

  /** The lines joined together are the empty text. */
  predicate AllEmpty(lines: seq<string>) { forall k | 0 <= k < |lines| :: lines[k] == "" }
}
