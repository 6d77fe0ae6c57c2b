/** The lines of a diff by their places: what the size and secret rules look at, without the functions that collect it. */
module Tier3Lines {
  import opened Diffs
  import opened DiffParse
  import opened Tier3Check

  /** File, hunk and line, each counted from 0. */
  type Place = (nat, nat, nat)

  predicate InDiff(files: seq<FileDiff>, p: Place) {
    p.0 < |files| && p.1 < |files[p.0].hunks| && p.2 < |files[p.0].hunks[p.1].lines|
  }

  function LineAt(files: seq<FileDiff>, p: Place): string
    requires InDiff(files, p)
  {
    files[p.0].hunks[p.1].lines[p.2]
  }

  predicate Precedes(p: Place, q: Place) { p.0 < q.0 || (p.0 == q.0 && (p.1 < q.1 || (p.1 == q.1 && p.2 < q.2))) }

  predicate Ascending(places: seq<Place>) { forall i, j | 0 <= i < j < |places| :: Precedes(places[i], places[j]) }

  /** These are the places of all the lines that qualify, in the order of the diff. */
  ghost predicate Picks(files: seq<FileDiff>, qualifies: string -> bool, places: seq<Place>) {
    && (forall p: Place :: p in places <==> InDiff(files, p) && qualifies(LineAt(files, p)))
    && Ascending(places)
  }

  predicate IsAdded(raw: string) { StartsWith(raw, "+") }

  predicate IsChanged(raw: string) { StartsWith(raw, "+") || StartsWith(raw, "-") }

  /** At these places, all those with a `+` and in order, the texts follow the `+`. */
  ghost predicate AddsAt(files: seq<FileDiff>, places: seq<Place>, texts: seq<string>) {
    && Picks(files, IsAdded, places) && |texts| == |places|
    && forall k | 0 <= k < |places| :: InDiff(files, places[k]) && LineAt(files, places[k]) == "+" + texts[k]
  }

  /** These are the texts of the lines the diff adds. */
  ghost predicate Adds(files: seq<FileDiff>, texts: seq<string>) { exists places: seq<Place> :: AddsAt(files, places, texts) }

  /** The diff changes this many lines: as many places have a `+` or a `-`. */
  ghost predicate ChangesLines(files: seq<FileDiff>, n: nat) {
    exists places: seq<Place> :: Picks(files, IsChanged, places) && n == |places|
  }

  // ---- places determine themselves -------------------------------------------------------------

  lemma FirstIsIn(a: seq<Place>)
    requires a != []
    ensures a[0] in a
  {}

  lemma {:induction false} SamePlaces(a: seq<Place>, b: seq<Place>)
    requires Ascending(a) && Ascending(b) && forall p: Place :: p in a <==> p in b
    ensures a == b
    decreases |a|
  {
    if a == [] {
      if b != [] {
        FirstIsIn(b);
        assert false;
      }
    } else {
      assert a[0] in b && b != [];
      assert b[0] in a;
      assert a[0] == b[0];
      forall p: Place ensures p in a[1..] <==> p in b[1..] {
        RestOf(a, p);
        RestOf(b, p);
      }
      SamePlaces(a[1..], b[1..]);
    }
  }

  lemma RestOf(a: seq<Place>, p: Place)
    requires a != [] && Ascending(a)
    ensures p in a[1..] <==> p in a && p != a[0]
  {
    if p in a[1..] {
      var k :| 0 <= k < |a| - 1 && a[1..][k] == p;
      assert Precedes(a[0], a[k + 1]);
    }
  }

  // ---- every place, in order -------------------------------------------------------------------

  function LinePlaces(f: nat, h: nat, n: nat): (r: seq<Place>)
    ensures |r| == n && forall k | 0 <= k < n :: r[k] == (f, h, k)
  {
    seq(n, (k: nat) => (f, h, k))
  }

  function HunkPlaces(f: nat, hunks: seq<Hunk>): seq<Place> {
    if hunks == [] then []
    else HunkPlaces(f, hunks[..|hunks| - 1]) + LinePlaces(f, |hunks| - 1, |hunks[|hunks| - 1].lines|)
  }

  function AllPlaces(files: seq<FileDiff>): seq<Place> {
    if files == [] then []
    else AllPlaces(files[..|files| - 1]) + HunkPlaces(|files| - 1, files[|files| - 1].hunks)
  }

  lemma AscendingTwo(a: seq<Place>, b: seq<Place>)
    requires Ascending(a) && Ascending(b) && forall p, q | p in a && q in b :: Precedes(p, q)
    ensures Ascending(a + b)
  {
    forall i, j | 0 <= i < j < |a + b| ensures Precedes((a + b)[i], (a + b)[j]) {
      if i < |a| <= j { assert a[i] in a && b[j - |a|] in b; }
    }
  }

  lemma {:induction false} HunkPlacesAre(f: nat, hunks: seq<Hunk>)
    ensures Ascending(HunkPlaces(f, hunks))
    ensures forall p: Place :: p in HunkPlaces(f, hunks) <==> p.0 == f && p.1 < |hunks| && p.2 < |hunks[p.1].lines|
  {
    if hunks != [] {
      var n := |hunks| - 1;
      var a, b := HunkPlaces(f, hunks[..n]), LinePlaces(f, n, |hunks[n].lines|);
      HunkPlacesAre(f, hunks[..n]);
      forall p: Place ensures p in b <==> p.0 == f && p.1 == n && p.2 < |hunks[n].lines| {
        if p.0 == f && p.1 == n && p.2 < |hunks[n].lines| { assert b[p.2] == p; }
      }
      AscendingTwo(a, b);
    }
  }

  lemma {:induction false} AllPlacesAre(files: seq<FileDiff>)
    ensures Ascending(AllPlaces(files)) && forall p: Place :: p in AllPlaces(files) <==> InDiff(files, p)
  {
    if files != [] {
      var n := |files| - 1;
      var a, b := AllPlaces(files[..n]), HunkPlaces(n, files[n].hunks);
      AllPlacesAre(files[..n]);
      HunkPlacesAre(n, files[n].hunks);
      forall p: Place ensures p in a <==> p.0 < n && InDiff(files, p) {}
      AscendingTwo(a, b);
    }
  }

  // ---- the qualifying ones ---------------------------------------------------------------------

  predicate AllIn(files: seq<FileDiff>, places: seq<Place>) { forall p | p in places :: InDiff(files, p) }

  function Keep(files: seq<FileDiff>, qualifies: string -> bool, places: seq<Place>): seq<Place>
    requires AllIn(files, places)
  {
    if places == [] then []
    else
      var n := |places| - 1;
      assert places[n] in places;
      Keep(files, qualifies, places[..n]) + if qualifies(LineAt(files, places[n])) then [places[n]] else []
  }

  lemma {:induction false} KeepIs(files: seq<FileDiff>, qualifies: string -> bool, places: seq<Place>)
    requires AllIn(files, places) && Ascending(places)
    ensures var kept := Keep(files, qualifies, places);
      Ascending(kept) && forall p: Place :: p in kept <==> p in places && InDiff(files, p) && qualifies(LineAt(files, p))
  {
    if places != [] {
      var n := |places| - 1;
      var last := places[n];
      KeepIs(files, qualifies, places[..n]);
      assert places == places[..n] + [last];
      var kept := Keep(files, qualifies, places[..n]);
      forall p | p in kept ensures Precedes(p, last) {
        var k :| 0 <= k < n && places[..n][k] == p;
      }
      AscendingTwo(kept, if qualifies(LineAt(files, last)) then [last] else []);
    }
  }

  lemma {:induction false} KeepTwo(files: seq<FileDiff>, qualifies: string -> bool, a: seq<Place>, b: seq<Place>)
    requires AllIn(files, a) && AllIn(files, b)
    ensures AllIn(files, a + b) && Keep(files, qualifies, a + b) == Keep(files, qualifies, a) + Keep(files, qualifies, b)
  {
    if b == [] {
      assert a + b == a;
    } else {
      var n := |b| - 1;
      KeepTwo(files, qualifies, a, b[..n]);
      assert (a + b)[..|a + b| - 1] == a + b[..n] && (a + b)[|a + b| - 1] == b[n];
    }
  }

  function Texts(files: seq<FileDiff>, places: seq<Place>): (r: seq<string>)
    requires AllIn(files, places)
    ensures |r| == |places|
  {
    if places == [] then []
    else
      var n := |places| - 1;
      assert places[n] in places;
      var raw := LineAt(files, places[n]);
      Texts(files, places[..n]) + [if raw == "" then "" else raw[1..]]
  }

  lemma {:induction false} TextsAre(files: seq<FileDiff>, places: seq<Place>)
    requires AllIn(files, places) && forall p | p in places :: IsAdded(LineAt(files, p))
    ensures forall k | 0 <= k < |places| :: InDiff(files, places[k]) && LineAt(files, places[k]) == "+" + Texts(files, places)[k]
  {
    if places != [] {
      var n := |places| - 1;
      assert places[n] in places;
      TextsAre(files, places[..n]);
      var raw := LineAt(files, places[n]);
      assert IsAdded(raw) && raw == [raw[0]] + raw[1..];
      forall k | 0 <= k < n ensures LineAt(files, places[k]) == "+" + Texts(files, places)[k] {
        assert places[..n][k] == places[k] && Texts(files, places)[k] == Texts(files, places[..n])[k];
      }
    }
  }

  lemma {:induction false} TextsTwo(files: seq<FileDiff>, a: seq<Place>, b: seq<Place>)
    requires AllIn(files, a) && AllIn(files, b)
    ensures AllIn(files, a + b) && Texts(files, a + b) == Texts(files, a) + Texts(files, b)
  {
    if b == [] {
      assert a + b == a;
    } else {
      var n := |b| - 1;
      TextsTwo(files, a, b[..n]);
      assert (a + b)[..|a + b| - 1] == a + b[..n] && (a + b)[|a + b| - 1] == b[n];
    }
  }

  // ---- what the rules collect ------------------------------------------------------------------

  /** What the rules would collect at these places. */
  ghost predicate Collects(files: seq<FileDiff>, places: seq<Place>, texts: seq<string>, changed: nat) {
    && AllIn(files, places)
    && AllIn(files, Keep(files, IsAdded, places)) && Texts(files, Keep(files, IsAdded, places)) == texts
    && |Keep(files, IsChanged, places)| == changed
  }

  lemma {:induction false} KeptAreIn(files: seq<FileDiff>, qualifies: string -> bool, places: seq<Place>)
    requires AllIn(files, places)
    ensures AllIn(files, Keep(files, qualifies, places))
  {
    if places != [] {
      var n := |places| - 1;
      assert places[n] in places;
      KeptAreIn(files, qualifies, places[..n]);
    }
  }

  lemma CollectsTwo(files: seq<FileDiff>, a: seq<Place>, b: seq<Place>, texts: seq<string>, texts': seq<string>, n: nat, n': nat)
    requires Collects(files, a, texts, n) && Collects(files, b, texts', n')
    ensures Collects(files, a + b, texts + texts', n + n')
  {
    KeepTwo(files, IsAdded, a, b);
    KeepTwo(files, IsChanged, a, b);
    TextsTwo(files, Keep(files, IsAdded, a), Keep(files, IsAdded, b));
  }

  lemma CollectsNothing(files: seq<FileDiff>)
    ensures Collects(files, [], [], 0)
  {}

  lemma CollectsOne(files: seq<FileDiff>, p: Place)
    requires InDiff(files, p)
    ensures var raw := LineAt(files, p);
      Collects(files, [p], if IsAdded(raw) then [raw[1..]] else [], if IsChanged(raw) then 1 else 0)
  {
    assert [p][..0] == [] && [p][0] == p;
    assert Keep(files, IsAdded, [p]) == if IsAdded(LineAt(files, p)) then [p] else [];
    assert Keep(files, IsChanged, [p]) == if IsChanged(LineAt(files, p)) then [p] else [];
  }

  function ChangedIn(lines: seq<string>): nat { CountPrefix(lines, IsPlus) + CountPrefix(lines, IsMinus) }

  lemma OneLine(lines: seq<string>, n: nat)
    requires n < |lines|
    ensures var last := lines[n];
      && PlusLines(lines[..n + 1]) == PlusLines(lines[..n]) + (if IsAdded(last) then [last[1..]] else [])
      && ChangedIn(lines[..n + 1]) == ChangedIn(lines[..n]) + (if IsChanged(last) then 1 else 0)
  {
    var last := lines[n];
    assert lines[..n + 1][..n] == lines[..n] && lines[..n + 1][n] == last;
    assert IsAdded(last) <==> last != "" && last[0] == '+';
    assert IsChanged(last) <==> last != "" && (last[0] == '+' || last[0] == '-');
  }

  lemma CollectsNext(files: seq<FileDiff>, places: seq<Place>, texts: seq<string>, changed: nat, p: Place)
    requires Collects(files, places, texts, changed) && InDiff(files, p)
    ensures var raw := LineAt(files, p);
      Collects(files, places + [p], texts + (if IsAdded(raw) then [raw[1..]] else []), changed + (if IsChanged(raw) then 1 else 0))
  {
    hide Collects;
    var raw := LineAt(files, p);
    CollectsOne(files, p);
    CollectsTwo(files, places, [p], texts, if IsAdded(raw) then [raw[1..]] else [], changed, if IsChanged(raw) then 1 else 0);
  }

  lemma {:induction false} LinesCollect(files: seq<FileDiff>, f: nat, h: nat, lines: seq<string>, n: nat)
    requires f < |files| && h < |files[f].hunks| && lines == files[f].hunks[h].lines && n <= |lines|
    ensures Collects(files, LinePlaces(f, h, n), PlusLines(lines[..n]), ChangedIn(lines[..n]))
  {
    if n == 0 {
      CollectsNothing(files);
    } else {
      hide Collects, PlusLines, ChangedIn, IsAdded, IsChanged, LinePlaces;
      LinesCollect(files, f, h, lines, n - 1);
      CollectsNext(files, LinePlaces(f, h, n - 1), PlusLines(lines[..n - 1]), ChangedIn(lines[..n - 1]), (f, h, n - 1));
      OneLine(lines, n - 1);
      LinePlacesNext(f, h, n - 1);
    }
  }

  lemma LinePlacesNext(f: nat, h: nat, n: nat)
    ensures LinePlaces(f, h, n + 1) == LinePlaces(f, h, n) + [(f, h, n)]
  {}

  lemma {:induction false} ChangedNext(hunks: seq<Hunk>, h: Hunk)
    ensures Changed(hunks + [h]) == Changed(hunks) + Added(h) + Removed(h)
  {
    if hunks == [] {
      assert hunks + [h] == [h];
    } else {
      ChangedNext(hunks[1..], h);
      assert (hunks + [h])[1..] == hunks[1..] + [h];
    }
  }

  lemma {:induction false} HunksCollect(files: seq<FileDiff>, f: nat, n: nat)
    requires f < |files| && n <= |files[f].hunks|
    ensures var hunks := files[f].hunks[..n]; Collects(files, HunkPlaces(f, hunks), AddedInHunks(hunks), Changed(hunks))
  {
    if n == 0 {
      CollectsNothing(files);
    } else {
      hide Collects, PlusLines, CountPrefix;
      var hunks, h := files[f].hunks[..n], files[f].hunks[n - 1];
      HunksCollect(files, f, n - 1);
      LinesCollect(files, f, n - 1, h.lines, |h.lines|);
      assert hunks[..n - 1] == files[f].hunks[..n - 1] && h.lines[..|h.lines|] == h.lines && hunks == hunks[..n - 1] + [h];
      ChangedNext(hunks[..n - 1], h);
      CollectsTwo(files, HunkPlaces(f, hunks[..n - 1]), LinePlaces(f, n - 1, |h.lines|), AddedInHunks(hunks[..n - 1]), PlusLines(h.lines),
        Changed(hunks[..n - 1]), Added(h) + Removed(h));
    }
  }

  lemma {:induction false} FilesCollect(files: seq<FileDiff>, n: nat)
    requires n <= |files|
    ensures Collects(files, AllPlaces(files[..n]), AddedLines(files[..n]), TotalChanged(files[..n]))
  {
    if n == 0 {
      CollectsNothing(files);
    } else {
      hide Collects;
      var front, hunks := files[..n][..n - 1], files[n - 1].hunks;
      FilesCollect(files, n - 1);
      HunksCollect(files, n - 1, |hunks|);
      assert front == files[..n - 1] && hunks[..|hunks|] == hunks;
      CollectsTwo(files, AllPlaces(front), HunkPlaces(n - 1, hunks), AddedLines(front), AddedInHunks(hunks), TotalChanged(front), Changed(hunks));
    }
  }

  // ---- the promises ----------------------------------------------------------------------------

  lemma AddedAtPlaces(files: seq<FileDiff>) returns (places: seq<Place>)
    ensures AddsAt(files, places, AddedLines(files))
  {
    hide Keep, AddedLines, TotalChanged, Texts, AllPlaces;
    AllPlacesAre(files);
    FilesCollect(files, |files|);
    assert files[..|files|] == files;
    places := Keep(files, IsAdded, AllPlaces(files));
    KeepIs(files, IsAdded, AllPlaces(files));
    TextsAre(files, places);
  }

  lemma SameTexts(files: seq<FileDiff>, places: seq<Place>, a: seq<string>, b: seq<string>)
    requires AddsAt(files, places, a) && AddsAt(files, places, b)
    ensures a == b
  {
    hide Picks, InDiff;
    forall k | 0 <= k < |a| ensures a[k] == b[k] {
      assert "+" + a[k] == "+" + b[k];
      assert ("+" + a[k])[1..] == a[k] && ("+" + b[k])[1..] == b[k];
    }
  }

  /** What is searched for secrets are the texts of the added lines: of every hunk of every file, in order. */
  lemma AddedLinesExactly(files: seq<FileDiff>, texts: seq<string>)
    ensures Adds(files, texts) <==> texts == AddedLines(files)
  {
    hide AddedLines;
    var mine := AddedAtPlaces(files);
    if Adds(files, texts) {
      var places: seq<Place> :| AddsAt(files, places, texts);
      SamePlaces(places, mine);
      SameTexts(files, mine, texts, AddedLines(files));
    }
  }

  /** What is held against the size limit is the number of added and removed lines. */
  lemma ChangedLinesExactly(files: seq<FileDiff>, n: nat)
    ensures ChangesLines(files, n) <==> n == TotalChanged(files)
  {
    hide Keep, AddedLines, TotalChanged, Texts, AllPlaces;
    AllPlacesAre(files);
    FilesCollect(files, |files|);
    assert files[..|files|] == files;
    var mine := Keep(files, IsChanged, AllPlaces(files));
    KeepIs(files, IsChanged, AllPlaces(files));
    assert Picks(files, IsChanged, mine);
    if ChangesLines(files, n) {
      var places: seq<Place> :| Picks(files, IsChanged, places) && n == |places|;
      SamePlaces(places, mine);
    }
  }

  ghost predicate AddsText(files: seq<FileDiff>, text: string) {
    exists fd, h, raw :: fd in files && h in fd.hunks && raw in h.lines && raw == "+" + text
  }

  /** A text is searched exactly when some file, hunk and line add it. */
  lemma SearchedExactly(files: seq<FileDiff>, text: string)
    ensures text in AddedLines(files) <==> AddsText(files, text)
  {
    hide AddedLines;
    var places := AddedAtPlaces(files);
    if text in AddedLines(files) {
      var k :| 0 <= k < |places| && AddedLines(files)[k] == text;
      PlaceAddsText(files, places[k], text);
    }
    if AddsText(files, text) {
      var p := TextHasPlace(files, text);
      assert p in places;
      var k :| 0 <= k < |places| && places[k] == p;
      assert "+" + AddedLines(files)[k] == "+" + text;
      assert ("+" + AddedLines(files)[k])[1..] == AddedLines(files)[k] && ("+" + text)[1..] == text;
    }
  }

  lemma PlaceAddsText(files: seq<FileDiff>, p: Place, text: string)
    requires InDiff(files, p) && LineAt(files, p) == "+" + text
    ensures AddsText(files, text)
  {
    var fd := files[p.0];
    var h := fd.hunks[p.1];
    assert fd in files && h in fd.hunks && h.lines[p.2] in h.lines;
  }

  lemma TextHasPlace(files: seq<FileDiff>, text: string) returns (p: Place)
    requires AddsText(files, text)
    ensures InDiff(files, p) && LineAt(files, p) == "+" + text && IsAdded(LineAt(files, p))
  {
    var fd, h, raw :| fd in files && h in fd.hunks && raw in h.lines && raw == "+" + text;
    var f :| 0 <= f < |files| && files[f] == fd;
    var j :| 0 <= j < |fd.hunks| && fd.hunks[j] == h;
    var l :| 0 <= l < |h.lines| && h.lines[l] == raw;
    p := (f, j, l);
  }
}
