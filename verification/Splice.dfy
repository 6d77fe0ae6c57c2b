/** The strict applier on lists of lines of any kind: patches are placed one after the other, each on the line it states
    or on the only other match, and the file is rebuilt around them. Applying is an exact splice, and can be undone. */
module Splice {
  import opened Wrappers

  /** The 0-based line a patch asks for and its two sides. */
  datatype Patch<T> = Patch(want: nat, before: seq<T>, after: seq<T>)

  datatype Problem = NoMatch(patch: nat) | SeveralMatches(patch: nat)

  // ---- placing ---------------------------------------------------------------------------------

  predicate MatchesAt<T(==)>(src: seq<T>, at: nat, lines: seq<T>) {
    at + |lines| <= |src| && src[at..at + |lines|] == lines
  }

  /** Every place from `lo` up to before `hi` where the lines stand. */
  function Hits<T(==)>(src: seq<T>, lines: seq<T>, lo: nat, hi: nat): seq<nat>
    decreases hi
  {
    if hi <= lo then [] else Hits(src, lines, lo, hi - 1) + (if MatchesAt(src, hi - 1, lines) then [hi - 1] else [])
  }

  /** The stated line, or the only match after the cursor. A patch without old lines goes where it says, even past the
      end of the file. */
  function Place<T(==)>(src: seq<T>, cursor: nat, p: Patch<T>): Result<nat, bool> {
    if p.want >= cursor && (p.before == [] || MatchesAt(src, p.want, p.before)) then Ok(p.want)
    else if p.before == [] then Err(false)
    else
      var hits := Hits(src, p.before, cursor, |src| + 1);
      if |hits| == 1 then Ok(hits[0]) else Err(hits != [])
  }

  /** Where the patches go, the first of them being number `n`; a patch starts after the one before it. */
  function Places<T(==)>(src: seq<T>, patches: seq<Patch<T>>, cursor: nat, n: nat): Result<seq<nat>, Problem> {
    if patches == [] then Ok([])
    else
      match Place(src, cursor, patches[0])
      case Err(several) => Err(if several then SeveralMatches(n) else NoMatch(n))
      case Ok(at) => Behind(at, Places(src, patches[1..], at + |patches[0].before|, n + 1))
  }

  function Behind(at: nat, r: Result<seq<nat>, Problem>): Result<seq<nat>, Problem> {
    if r.Ok? then Ok([at] + r.value) else r
  }

  // ---- rebuilding ------------------------------------------------------------------------------

  /** Python's slice: out-of-range ends are clamped. */
  function Cut<T>(src: seq<T>, lo: nat, hi: nat): seq<T> {
    src[Clamp(src, lo)..if hi < lo then Clamp(src, lo) else Clamp(src, hi)]
  }

  function Clamp<T>(src: seq<T>, at: nat): nat { if at <= |src| then at else |src| }

  /** One replacement: `before` stands at line `at` of the old file, `after` at line `landed` of the new one. */
  datatype Edit<T> = Edit(at: nat, before: seq<T>, landed: nat, after: seq<T>)

  /** The edits the placed patches make, when `landed` lines of the new file were written up to `cursor`. */
  function EditsAt<T>(src: seq<T>, patches: seq<Patch<T>>, ats: seq<nat>, cursor: nat, landed: nat): seq<Edit<T>>
    requires |ats| == |patches|
    decreases patches
  {
    if patches == [] then []
    else
      var p, here := patches[0], landed + |Cut(src, cursor, ats[0])|;
      [Edit(Clamp(src, ats[0]), p.before, here, p.after)]
      + EditsAt(src, patches[1..], ats[1..], ats[0] + |p.before|, here + |p.after|)
  }

  /** The new file from line `i` of the old one on. */
  function Rebuild<T>(src: seq<T>, i: nat, edits: seq<Edit<T>>): seq<T>
    decreases edits
  {
    if edits == [] then src[Clamp(src, i)..]
    else Cut(src, i, edits[0].at) + edits[0].after + Rebuild(src, edits[0].at + |edits[0].before|, edits[1..])
  }

  function Edits<T(==)>(src: seq<T>, patches: seq<Patch<T>>): seq<Edit<T>>
    requires Places(src, patches, 0, 1).Ok?
  {
    PlacesLength(src, patches, 0, 1);
    EditsAt(src, patches, Places(src, patches, 0, 1).value, 0, 0)
  }

  function Apply<T(==)>(src: seq<T>, patches: seq<Patch<T>>): Result<seq<T>, Problem> {
    match Places(src, patches, 0, 1)
    case Err(e) => Err(e)
    case Ok(_) => Ok(Rebuild(src, 0, Edits(src, patches)))
  }

  lemma PlacesLength<T>(src: seq<T>, patches: seq<Patch<T>>, cursor: nat, n: nat)
    ensures Places(src, patches, cursor, n).Ok? ==> |Places(src, patches, cursor, n).value| == |patches|
  {}

  // ---- what placing finds ----------------------------------------------------------------------

  /** The places lie in order, apart from each other, and the old lines stand there. */
  ghost predicate Fits<T>(src: seq<T>, patches: seq<Patch<T>>, ats: seq<nat>, cursor: nat)
    decreases patches
  {
    && |ats| == |patches|
    && (patches != [] ==>
          var p := patches[0];
          && cursor <= ats[0]
          && (p.before != [] ==> MatchesAt(src, ats[0], p.before))
          && Fits(src, patches[1..], ats[1..], ats[0] + |p.before|))
  }

  /** The patch stands on the line it states or, failing that, on the only match from `cursor` on. */
  ghost predicate StatedOrOnly<T>(src: seq<T>, cursor: nat, p: Patch<T>, at: nat) {
    at == p.want || (p.before != [] && forall k: nat | cursor <= k :: MatchesAt(src, k, p.before) <==> k == at)
  }

  ghost predicate AllStatedOrOnly<T>(src: seq<T>, patches: seq<Patch<T>>, ats: seq<nat>, cursor: nat)
    decreases patches
  {
    && |ats| == |patches|
    && (patches != [] ==>
      && StatedOrOnly(src, cursor, patches[0], ats[0])
      && AllStatedOrOnly(src, patches[1..], ats[1..], ats[0] + |patches[0].before|))
  }

  lemma {:induction false} HitsAreMatches<T>(src: seq<T>, lines: seq<T>, lo: nat, hi: nat)
    ensures forall k: nat :: k in Hits(src, lines, lo, hi) <==> lo <= k < hi && MatchesAt(src, k, lines)
    decreases hi
  {
    if lo < hi { HitsAreMatches(src, lines, lo, hi - 1); }
  }

  lemma PlaceIsGood<T>(src: seq<T>, cursor: nat, p: Patch<T>)
    requires Place(src, cursor, p).Ok?
    ensures var at := Place(src, cursor, p).value;
      && cursor <= at
      && (p.before != [] ==> MatchesAt(src, at, p.before))
      && StatedOrOnly(src, cursor, p, at)
  {
    if p.before != [] && !(p.want >= cursor && MatchesAt(src, p.want, p.before)) {
      var hits := Hits(src, p.before, cursor, |src| + 1);
      HitsAreMatches(src, p.before, cursor, |src| + 1);
      assert hits == [hits[0]];
      assert hits[0] in hits;
      assert forall k: nat :: k in hits ==> k == hits[0];
    }
  }

  /** A patch is refused as unmatched only if its lines stand nowhere from the cursor on. */
  lemma RefusedForNoMatch<T>(src: seq<T>, cursor: nat, p: Patch<T>)
    requires Place(src, cursor, p) == Err(false)
    ensures if p.before == [] then p.want < cursor else forall k: nat | cursor <= k :: !MatchesAt(src, k, p.before)
  {
    if p.before != [] { HitsAreMatches(src, p.before, cursor, |src| + 1); }
  }

  /** A patch is refused as ambiguous only if its lines stand in two places from the cursor on. */
  lemma RefusedForSeveral<T>(src: seq<T>, cursor: nat, p: Patch<T>)
    requires Place(src, cursor, p) == Err(true)
    ensures exists a: nat, b: nat ::
      cursor <= a && cursor <= b && a != b && MatchesAt(src, a, p.before) && MatchesAt(src, b, p.before)
  {
    var hits := Hits(src, p.before, cursor, |src| + 1);
    HitsAscend(src, p.before, cursor, |src| + 1, hits);
    HitsAreMatches(src, p.before, cursor, |src| + 1);
    var a, b := hits[0], hits[1];
    assert a in hits && b in hits;
  }

  lemma {:induction false} HitsAscend<T>(src: seq<T>, lines: seq<T>, lo: nat, hi: nat, hits: seq<nat>)
    requires hits == Hits(src, lines, lo, hi)
    ensures forall a, b | 0 <= a < b < |hits| :: hits[a] < hits[b]
    ensures forall a | 0 <= a < |hits| :: hits[a] < hi
    decreases hi
  {
    if lo < hi {
      var init := Hits(src, lines, lo, hi - 1);
      HitsAscend(src, lines, lo, hi - 1, init);
      assert hits == init || hits == init + [hi - 1];
    }
  }

  lemma {:induction false} PlacesFit<T>(src: seq<T>, patches: seq<Patch<T>>, cursor: nat, n: nat, ats: seq<nat>)
    requires Places(src, patches, cursor, n) == Ok(ats)
    ensures Fits(src, patches, ats, cursor) && AllStatedOrOnly(src, patches, ats, cursor)
    decreases patches
  {
    if patches != [] {
      var at := Place(src, cursor, patches[0]).value;
      PlaceIsGood(src, cursor, patches[0]);
      assert ats == [at] + ats[1..];
      PlacesFit(src, patches[1..], at + |patches[0].before|, n + 1, ats[1..]);
    }
  }

  // ---- a picture of applying that does not mention the applier ---------------------------------

  /** From line `i` of the old file and line `j` of the new one on: the edits follow each other without overlap, their
      lines stand where they say, and the lines between them and after the last are the same on both sides. */
  ghost predicate IsSplice<T>(src: seq<T>, i: nat, edits: seq<Edit<T>>, out: seq<T>, j: nat)
    decreases edits
  {
    if edits == [] then i <= |src| && j <= |out| && src[i..] == out[j..]
    else
      var e := edits[0];
      && i <= e.at && j <= e.landed
      && MatchesAt(src, e.at, e.before) && MatchesAt(out, e.landed, e.after)
      && src[i..e.at] == out[j..e.landed]
      && IsSplice(src, e.at + |e.before|, edits[1..], out, e.landed + |e.after|)
  }

  /** One more edit in front of a splice. */
  lemma SpliceCons<T>(src: seq<T>, i: nat, e: Edit<T>, edits: seq<Edit<T>>, out: seq<T>, j: nat)
    requires i <= e.at && j <= e.landed
    requires MatchesAt(src, e.at, e.before) && MatchesAt(out, e.landed, e.after)
    requires src[i..e.at] == out[j..e.landed]
    requires IsSplice(src, e.at + |e.before|, edits, out, e.landed + |e.after|)
    ensures IsSplice(src, i, [e] + edits, out, j)
  {
    assert ([e] + edits)[1..] == edits;
  }

  /** What the rebuilt file needs of its edits: they lie in order in the old file, and `landed` counts on from `j`. */
  ghost predicate Chained<T>(src: seq<T>, i: nat, edits: seq<Edit<T>>, j: nat)
    decreases edits
  {
    && i <= |src|
    && (edits != [] ==>
          var e := edits[0];
          && i <= e.at && MatchesAt(src, e.at, e.before) && e.landed == j + (e.at - i)
          && Chained(src, e.at + |e.before|, edits[1..], e.landed + |e.after|))
  }

  lemma {:induction false} EditsAreChained<T>(src: seq<T>, patches: seq<Patch<T>>, ats: seq<nat>, cursor: nat, j: nat)
    requires Fits(src, patches, ats, cursor)
    ensures Chained(src, Clamp(src, cursor), EditsAt(src, patches, ats, cursor, j), j)
    decreases patches
  {
    if patches != [] {
      var p, at, edits := patches[0], ats[0], EditsAt(src, patches, ats, cursor, j);
      var e := edits[0];
      assert edits[1..] == EditsAt(src, patches[1..], ats[1..], at + |p.before|, e.landed + |e.after|);
      EditsAreChained(src, patches[1..], ats[1..], at + |p.before|, e.landed + |e.after|);
    }
  }

  lemma {:induction false} EditsCarry<T>(src: seq<T>, patches: seq<Patch<T>>, ats: seq<nat>, cursor: nat, j: nat, k: nat)
    requires |ats| == |patches|
    ensures var edits := EditsAt(src, patches, ats, cursor, j);
      && |edits| == |patches|
      && (k < |patches| ==>
            edits[k].before == patches[k].before && edits[k].after == patches[k].after && edits[k].at == Clamp(src, ats[k]))
    decreases patches
  {
    if patches != [] {
      var p, here := patches[0], j + |Cut(src, cursor, ats[0])|;
      EditsCarry(src, patches[1..], ats[1..], ats[0] + |p.before|, here + |p.after|, if k == 0 then 0 else k - 1);
    }
  }

  lemma {:induction false} RebuildIsSplice<T>(src: seq<T>, i: nat, edits: seq<Edit<T>>, done: seq<T>, out: seq<T>)
    requires Chained(src, i, edits, |done|) && out == done + Rebuild(src, i, edits)
    ensures IsSplice(src, i, edits, out, |done|)
    decreases edits
  {
    if edits == [] {
      assert out[|done|..] == src[i..];
    } else {
      var e := edits[0];
      var cut, next := src[i..e.at], e.at + |e.before|;
      var tail := Rebuild(src, next, edits[1..]);
      assert Rebuild(src, i, edits) == cut + e.after + tail;
      assert out == done + cut + e.after + tail;
      assert out[|done|..e.landed] == cut;
      assert out[e.landed..e.landed + |e.after|] == e.after;
      RebuildIsSplice(src, next, edits[1..], done + cut + e.after, out);
    }
  }

  /** A successful apply replaces the old lines of each patch by its new ones, in order and without overlap, and keeps
      every other line in order. */
  lemma ApplyIsSplice<T>(src: seq<T>, patches: seq<Patch<T>>)
    requires Apply(src, patches).Ok?
    ensures IsSplice(src, 0, Edits(src, patches), Apply(src, patches).value, 0)
    ensures Carry(patches, Edits(src, patches))
    ensures AllStatedOrOnly(src, patches, Places(src, patches, 0, 1).value, 0)
  {
    var ats, out := Places(src, patches, 0, 1).value, Apply(src, patches).value;
    PlacesFit(src, patches, 0, 1, ats);
    EditsAreChained(src, patches, ats, 0, 0);
    assert [] + out == out;
    RebuildIsSplice(src, 0, Edits(src, patches), [], out);
    EditsCarry(src, patches, ats, 0, 0, 0);
    forall k | 0 <= k < |patches|
      ensures Edits(src, patches)[k].before == patches[k].before && Edits(src, patches)[k].after == patches[k].after
    {
      EditsCarry(src, patches, ats, 0, 0, k);
    }
  }

  ghost predicate Carry<T>(patches: seq<Patch<T>>, edits: seq<Edit<T>>) {
    && |edits| == |patches|
    && forall k | 0 <= k < |patches| :: edits[k].before == patches[k].before && edits[k].after == patches[k].after
  }

  /** A splice says everything about its result. */
  lemma {:induction false} SpliceIsExact<T>(src: seq<T>, i: nat, edits: seq<Edit<T>>, out: seq<T>, out': seq<T>, j: nat)
    requires IsSplice(src, i, edits, out, j) && IsSplice(src, i, edits, out', j)
    ensures out[j..] == out'[j..]
    decreases edits
  {
    if edits != [] {
      var e := edits[0];
      SpliceIsExact(src, e.at + |e.before|, edits[1..], out, out', e.landed + |e.after|);
      OnePiece(out, j, e.landed, e.after);
      OnePiece(out', j, e.landed, e.after);
    }
  }

  lemma OnePiece<T>(out: seq<T>, j: nat, landed: nat, after: seq<T>)
    requires j <= landed && MatchesAt(out, landed, after)
    ensures out[j..] == out[j..landed] + after + out[landed + |after|..]
  {}

  // ---- undoing ---------------------------------------------------------------------------------

  function FlipEdit<T>(e: Edit<T>): Edit<T> { Edit(e.landed, e.after, e.at, e.before) }

  function FlipEdits<T>(edits: seq<Edit<T>>): (r: seq<Edit<T>>)
    ensures |r| == |edits| && forall k | 0 <= k < |r| :: r[k] == FlipEdit(edits[k])
  {
    if edits == [] then [] else [FlipEdit(edits[0])] + FlipEdits(edits[1..])
  }

  /** A splice seen from the new file is a splice. */
  lemma {:induction false} SpliceIsSymmetric<T>(src: seq<T>, i: nat, edits: seq<Edit<T>>, out: seq<T>, j: nat)
    requires IsSplice(src, i, edits, out, j)
    ensures IsSplice(out, j, FlipEdits(edits), src, i)
    decreases edits
  {
    if edits != [] {
      var e := edits[0];
      SpliceIsSymmetric(src, e.at + |e.before|, edits[1..], out, e.landed + |e.after|);
      assert FlipEdits(edits)[1..] == FlipEdits(edits[1..]);
    }
  }

  /** The patches that state exactly where the edits stand. */
  function Stated<T>(edits: seq<Edit<T>>): (r: seq<Patch<T>>)
    ensures |r| == |edits|
    ensures forall k | 0 <= k < |r| :: r[k] == Patch(edits[k].at, edits[k].before, edits[k].after)
  {
    if edits == [] then [] else [Patch(edits[0].at, edits[0].before, edits[0].after)] + Stated(edits[1..])
  }

  function Ats<T>(edits: seq<Edit<T>>): (r: seq<nat>)
    ensures |r| == |edits|
  {
    if edits == [] then [] else [edits[0].at] + Ats(edits[1..])
  }

  lemma {:induction false} StatedIsPlaced<T>(src: seq<T>, i: nat, edits: seq<Edit<T>>, out: seq<T>, j: nat, n: nat)
    requires IsSplice(src, i, edits, out, j)
    ensures Places(src, Stated(edits), i, n) == Ok(Ats(edits))
    decreases edits
  {
    if edits != [] {
      var e := edits[0];
      StatedIsPlaced(src, e.at + |e.before|, edits[1..], out, e.landed + |e.after|, n + 1);
      assert Stated(edits)[1..] == Stated(edits[1..]);
      assert Place(src, i, Stated(edits)[0]) == Ok(e.at);
    }
  }

  /** In a splice every `landed` is where its edit really lands. */
  lemma {:induction false} EditsAtStated<T>(src: seq<T>, i: nat, edits: seq<Edit<T>>, out: seq<T>, j: nat)
    requires IsSplice(src, i, edits, out, j)
    ensures EditsAt(src, Stated(edits), Ats(edits), i, j) == edits
    decreases edits
  {
    if edits != [] {
      var e := edits[0];
      EditsAtStated(src, e.at + |e.before|, edits[1..], out, e.landed + |e.after|);
      assert Stated(edits)[1..] == Stated(edits[1..]) && Ats(edits)[1..] == Ats(edits[1..]);
      assert |src[i..e.at]| == |out[j..e.landed]|;
      assert edits == [e] + edits[1..];
    }
  }

  lemma {:induction false} SpliceIsChained<T>(src: seq<T>, i: nat, edits: seq<Edit<T>>, out: seq<T>, j: nat)
    requires IsSplice(src, i, edits, out, j)
    ensures j <= |out| && Chained(src, i, edits, j)
    decreases edits
  {
    if edits != [] {
      var e := edits[0];
      SpliceIsChained(src, e.at + |e.before|, edits[1..], out, e.landed + |e.after|);
      assert |src[i..e.at]| == |out[j..e.landed]|;
    }
  }

  /** There is only one file a splice can rebuild. */
  lemma RebuildSplice<T>(src: seq<T>, edits: seq<Edit<T>>, out: seq<T>)
    requires IsSplice(src, 0, edits, out, 0)
    ensures Rebuild(src, 0, edits) == out
  {
    var rebuilt := Rebuild(src, 0, edits);
    SpliceIsChained(src, 0, edits, out, 0);
    assert [] + rebuilt == rebuilt;
    RebuildIsSplice(src, 0, edits, [], rebuilt);
    SpliceIsExact(src, 0, edits, out, rebuilt, 0);
    assert out[0..] == out && rebuilt[0..] == rebuilt;
  }

  /** Patches that state the true lines of a splice apply, and produce that splice. */
  lemma StatedLinesApply<T>(src: seq<T>, edits: seq<Edit<T>>, out: seq<T>)
    requires IsSplice(src, 0, edits, out, 0)
    ensures Apply(src, Stated(edits)) == Ok(out)
  {
    StatedIsPlaced(src, 0, edits, out, 0, 1);
    EditsAtStated(src, 0, edits, out, 0);
    RebuildSplice(src, edits, out);
  }

  /** The smallest case: a one-line file whose line is replaced. */
  lemma ReplaceOnlyLine<T>(a: T, b: T)
    ensures Apply([a], [Patch(0, [a], [b])]) == Ok([b])
  {
    var e := Edit(0, [a], 0, [b]);
    assert IsSplice([a], 1, [], [b], 1);
    SpliceCons([a], 0, e, [], [b], 0);
    assert [e] + [] == [e];
    StatedLinesApply([a], [e], [b]);
    assert Stated([e]) == [Patch(0, [a], [b])];
  }

  /** The other: lines written into an empty file. */
  lemma FillEmpty<T>(lines: seq<T>)
    ensures Apply([], [Patch(0, [], lines)]) == Ok(lines)
  {
    var e: Edit<T> := Edit(0, [], 0, lines);
    assert IsSplice([], 0, [], lines, |lines|);
    SpliceCons([], 0, e, [], lines, 0);
    assert [e] + [] == [e];
    StatedLinesApply([], [e], lines);
    assert Stated([e]) == [Patch(0, [], lines)];
  }

  /** Undoing: the flipped patches, restated to where each one landed, give the old file back. */
  lemma FlippedUndoes<T>(src: seq<T>, patches: seq<Patch<T>>)
    requires Apply(src, patches).Ok?
    ensures Apply(Apply(src, patches).value, Stated(FlipEdits(Edits(src, patches)))) == Ok(src)
  {
    var edits, out := Edits(src, patches), Apply(src, patches).value;
    ApplyIsSplice(src, patches);
    SpliceIsSymmetric(src, 0, edits, out, 0);
    StatedLinesApply(out, FlipEdits(edits), src);
  }

  // ---- one round of the applier's loop ---------------------------------------------------------

  /** What is still to come when `out` is written, the cursor has passed the earlier patches and `todo` is left. */
  function Continue<T(==)>(src: seq<T>, todo: seq<Patch<T>>, cursor: nat, n: nat, out: seq<T>): Result<seq<T>, Problem> {
    match Places(src, todo, cursor, n)
    case Err(e) => Err(e)
    case Ok(ats) =>
      PlacesLength(src, todo, cursor, n);
      Ok(out + Rebuild(src, Clamp(src, cursor), EditsAt(src, todo, ats, cursor, |out|)))
  }

  lemma ContinueAll<T>(src: seq<T>, patches: seq<Patch<T>>)
    ensures Continue(src, patches, 0, 1, []) == Apply(src, patches)
  {
    if Places(src, patches, 0, 1).Ok? {
      assert [] + Apply(src, patches).value == Apply(src, patches).value;
    }
  }

  lemma ContinueOne<T>(src: seq<T>, todo: seq<Patch<T>>, cursor: nat, n: nat, out: seq<T>)
    requires todo != []
    ensures Continue(src, todo, cursor, n, out) ==
      match Place(src, cursor, todo[0])
      case Err(several) => Err(if several then SeveralMatches(n) else NoMatch(n))
      case Ok(at) =>
        Continue(src, todo[1..], at + |todo[0].before|, n + 1, out + Cut(src, cursor, at) + todo[0].after)
  {
    var p := todo[0];
    if Place(src, cursor, p).Ok? {
      var at := Place(src, cursor, p).value;
      var next := at + |p.before|;
      if Places(src, todo[1..], next, n + 1).Ok? {
        PlaceIsGood(src, cursor, p);
        PlacesLength(src, todo[1..], next, n + 1);
        RebuildOne(src, todo, at, Places(src, todo[1..], next, n + 1).value, cursor, out);
      }
    }
  }

  lemma RebuildOne<T>(src: seq<T>, todo: seq<Patch<T>>, at: nat, ats: seq<nat>, cursor: nat, out: seq<T>)
    requires |todo| == |ats| + 1 && cursor <= at && (todo[0].before != [] ==> MatchesAt(src, at, todo[0].before))
    ensures var next, out' := at + |todo[0].before|, out + Cut(src, cursor, at) + todo[0].after;
      out + Rebuild(src, Clamp(src, cursor), EditsAt(src, todo, [at] + ats, cursor, |out|))
        == out' + Rebuild(src, Clamp(src, next), EditsAt(src, todo[1..], ats, next, |out'|))
  {
    var p, cut := todo[0], Cut(src, cursor, at);
    var next, out' := at + |p.before|, out + cut + p.after;
    var all, rest := EditsAt(src, todo, [at] + ats, cursor, |out|), EditsAt(src, todo[1..], ats, next, |out'|);
    EditsFirst(src, todo, at, ats, cursor, |out|, |out'|);
    RebuildAfter(src, cursor, at, p, all, rest, out);
  }

  lemma RebuildAfter<T>(src: seq<T>, cursor: nat, at: nat, p: Patch<T>, all: seq<Edit<T>>, rest: seq<Edit<T>>, out: seq<T>)
    requires cursor <= at && (p.before != [] ==> MatchesAt(src, at, p.before))
    requires all == [Edit(Clamp(src, at), p.before, |out| + |Cut(src, cursor, at)|, p.after)] + rest
    ensures out + Rebuild(src, Clamp(src, cursor), all)
      == out + Cut(src, cursor, at) + p.after + Rebuild(src, Clamp(src, at + |p.before|), rest)
  {
    var cut := Cut(src, cursor, at);
    RebuildFirst(src, Clamp(src, cursor), all[0], rest);
    assert Cut(src, Clamp(src, cursor), all[0].at) == cut;
    Regroup(out, cut, p.after, Rebuild(src, Clamp(src, at + |p.before|), rest));
  }

  lemma EditsFirst<T>(src: seq<T>, todo: seq<Patch<T>>, at: nat, ats: seq<nat>, cursor: nat, landed: nat, landed': nat)
    requires |todo| == |ats| + 1 && landed' == landed + |Cut(src, cursor, at)| + |todo[0].after|
    ensures EditsAt(src, todo, [at] + ats, cursor, landed)
      == [Edit(Clamp(src, at), todo[0].before, landed + |Cut(src, cursor, at)|, todo[0].after)]
         + EditsAt(src, todo[1..], ats, at + |todo[0].before|, landed')
  {
    assert ([at] + ats)[1..] == ats;
  }

  lemma RebuildFirst<T>(src: seq<T>, i: nat, e: Edit<T>, rest: seq<Edit<T>>)
    ensures Rebuild(src, i, [e] + rest) == Cut(src, i, e.at) + e.after + Rebuild(src, e.at + |e.before|, rest)
  {
    assert ([e] + rest)[1..] == rest;
  }

  lemma Regroup<T>(a: seq<T>, b: seq<T>, c: seq<T>, d: seq<T>)
    ensures a + (b + c + d) == a + b + c + d
  {}

  method FindHits<T(==)>(src: seq<T>, lines: seq<T>, cursor: nat) returns (hits: seq<nat>)
    requires lines != []
    ensures hits == Hits(src, lines, cursor, |src| + 1)
  {
    hits := [];
    var k := cursor;
    while k + |lines| <= |src|
      invariant cursor <= k && (cursor == k || k + |lines| <= |src| + 1)
      invariant hits == Hits(src, lines, cursor, k)
    {
      if src[k..k + |lines|] == lines { hits := hits + [k]; }
      k := k + 1;
    }
    NoLateHits(src, lines, cursor, k, |src| + 1);
  }

  lemma {:induction false} NoLateHits<T>(src: seq<T>, lines: seq<T>, lo: nat, mid: nat, hi: nat)
    requires lo <= mid && mid + |lines| > |src|
    ensures mid <= hi ==> Hits(src, lines, lo, mid) == Hits(src, lines, lo, hi)
    ensures hi <= lo ==> Hits(src, lines, lo, hi) == Hits(src, lines, lo, lo) == []
    decreases hi
  {
    if mid < hi { NoLateHits(src, lines, lo, mid, hi - 1); }
  }

  /** The stated line first, then the search. */
  method FindPlace<T(==)>(src: seq<T>, cursor: nat, want: nat, before: seq<T>, ghost after: seq<T>) returns (at: Result<nat, bool>)
    ensures at == Place(src, cursor, Patch(want, before, after))
  {
    if want >= cursor && (before == [] || MatchesAt(src, want, before)) { return Ok(want); }
    if before == [] { return Err(false); }
    var hits := FindHits(src, before, cursor);
    at := if |hits| == 1 then Ok(hits[0]) else Err(hits != []);
  }
}
