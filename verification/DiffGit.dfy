/** Diffs as tools write them: header lines and blank lines around the files, and file names with something after them. */
module DiffGit {
  import opened Wrappers
  import opened Diffs
  import opened DiffParse
  import opened DiffPrint

  const HEADER_WORDS: seq<string> :=
    ["diff ", "index ", "old mode", "new mode", "similarity ", "rename ", "new file mode", "deleted file"]

  /** A line outside the files that says nothing about them. */
  ghost predicate Passed(line: string) {
    (exists word :: word in HEADER_WORDS && word <= line) || IsBlank(line)
  }

  lemma PassedIsIgnored(line: string)
    ensures Passed(line) <==> Ignored(line) || IsBlank(line)
    ensures Passed(line) ==> !StartsWith(line, "--- ")
  {
    if Ignored(line) {
      forall k | 0 <= k < |HEADER_WORDS| ensures HEADER_WORDS[k] in HEADER_WORDS {}
      assert HEADER_WORDS[0] <= line || HEADER_WORDS[1] <= line || HEADER_WORDS[2] <= line || HEADER_WORDS[3] <= line
        || HEADER_WORDS[4] <= line || HEADER_WORDS[5] <= line || HEADER_WORDS[6] <= line || HEADER_WORDS[7] <= line;
    }
    if word :| word in HEADER_WORDS && word <= line { assert word[0] != '-' && line[0] == word[0]; }
    if IsBlank(line) && line != "" { assert IsSpace(line[0]); }
  }

  /** A line where a file may begin: passed over, or the beginning of a file, or the end of the reading. */
  lemma OtherLinesAreRefused(line: string, lines: seq<string>)
    requires !StartsWith(line, "--- ")
    ensures ParseFiles([line] + lines) == if Passed(line) then ParseFiles(lines) else Err(NotAUnifiedDiff)
  {
    PassedIsIgnored(line);
    assert ([line] + lines)[1..] == lines;
  }

  lemma {:induction false} PassedLines(noise: seq<string>, lines: seq<string>)
    requires forall line | line in noise :: Passed(line)
    ensures ParseFiles(noise + lines) == ParseFiles(lines)
  {
    if noise == [] {
      assert noise + lines == lines;
    } else {
      PassedLines(noise[1..], lines);
      assert noise + lines == [noise[0]] + (noise[1..] + lines);
      PassedIsIgnored(noise[0]);
      OtherLinesAreRefused(noise[0], noise[1..] + lines);
    }
  }

  /** One line of a hunk's body: a header ends it, an empty line stands for an empty context line, and any other line
      without a prefix is refused. */
  lemma BodyLineExactly(line: string, lines: seq<string>)
    ensures ParseBody([line] + lines) ==
      if StartsWith(line, "@@") || StartsWith(line, "--- ") || StartsWith(line, "diff ") then Ok(([], [line] + lines))
      else if line != "" && line[0] != ' ' && line[0] != '+' && line[0] != '-' && line[0] != '\\' then Err(NotADiffLine)
      else Ahead([if line == "" then " " else line], ParseBody(lines))
  {
    assert ([line] + lines)[1..] == lines;
  }

  // ---- file names ------------------------------------------------------------------------------

  /** Nothing but blanks before the first tab, if there is one: a timestamp, say. */
  predicate Ending(s: string) { IsBlank(Split(s, '\t')[0]) }

  /** What is left when the blanks around it are removed. */
  predicate Bare(name: string) { name != "" ==> !IsSpace(name[0]) && !IsSpace(name[|name| - 1]) }

  lemma {:induction false} SplitBehind(s: string, rest: string, sep: char)
    requires sep !in s
    ensures Split(s + rest, sep)[0] == s + Split(rest, sep)[0]
  {
    if s == "" {
      assert s + rest == rest;
    } else {
      SplitBehind(s[1..], rest, sep);
      assert (s + rest)[1..] == s[1..] + rest;
      assert [s[0]] + (s[1..] + Split(rest, sep)[0]) == s + Split(rest, sep)[0];
    }
  }

  lemma {:induction false} StripBlanks(lead: string, name: string, trail: string)
    requires IsBlank(lead) && Bare(name) && IsBlank(trail)
    ensures Strip(lead + name + trail) == name
  {
    StripFront(lead, name + trail);
    assert lead + name + trail == lead + (name + trail);
    if name == "" {
      StripFront(trail, "");
      assert name + trail == trail + "";
    } else {
      assert (name + trail)[0] == name[0];
      StripBack(name, trail);
    }
  }

  lemma {:induction false} StripFront(lead: string, s: string)
    requires IsBlank(lead)
    ensures StripLeft(lead + s) == StripLeft(s)
  {
    if lead == "" {
      assert lead + s == s;
    } else {
      StripFront(lead[1..], s);
      assert IsSpace(lead[0]) && (lead + s)[1..] == lead[1..] + s;
    }
  }

  lemma {:induction false} StripBack(name: string, trail: string)
    requires name != "" && !IsSpace(name[|name| - 1]) && IsBlank(trail)
    ensures StripRight(name + trail) == name
  {
    if trail == "" {
      assert name + trail == name;
    } else {
      var n := |trail| - 1;
      StripBack(name, trail[..n]);
      assert IsSpace(trail[n]) && (name + trail)[..|name| + n] == name + trail[..n];
    }
  }

  /** A header names a file by whatever stands between the blanks around it and the first tab. */
  lemma HeaderPathExactly(lead: string, name: string, ending: string)
    requires '\t' !in lead && '\t' !in name && IsBlank(lead) && Bare(name) && Ending(ending)
    ensures HeaderPath(lead + name + ending) ==
      if name == "/dev/null" then None
      else if |name| >= 2 && (name[..2] == "a/" || name[..2] == "b/") then Some(name[2..])
      else Some(name)
  {
    var trail := Split(ending, '\t')[0];
    SplitBehind(lead + name, ending, '\t');
    StripBlanks(lead, name, trail);
    assert StartsWith(name, "a/") <==> |name| >= 2 && name[..2] == "a/";
    assert StartsWith(name, "b/") <==> |name| >= 2 && name[..2] == "b/";
  }

  // ---- whole diffs -----------------------------------------------------------------------------

  /** One file with the lines before it and what follows its two names. */
  datatype Section = Section(before: seq<string>, oldEnding: string, newEnding: string, fd: FileDiff)

  function FilesOf(sections: seq<Section>): seq<FileDiff> {
    if sections == [] then [] else [sections[0].fd] + FilesOf(sections[1..])
  }

  function SectionLines(s: Section): seq<string> {
    s.before + (["--- " + (PrintPath("a/", s.fd.oldPath) + s.oldEnding), "+++ " + (PrintPath("b/", s.fd.newPath) + s.newEnding)]
                + PrintHunks(s.fd.hunks))
  }

  function GitLines(sections: seq<Section>): seq<string> {
    if sections == [] then [] else SectionLines(sections[0]) + GitLines(sections[1..])
  }

  /** The lines before a file are passed over; behind another file's hunks, the first of them ends those. */
  ghost predicate Separates(before: seq<string>, first: bool) {
    (forall line | line in before :: Passed(line)) && (!first && before != [] ==> StartsWith(before[0], "diff "))
  }

  ghost predicate GoodSection(s: Section, first: bool) {
    && Separates(s.before, first) && Ending(s.oldEnding) && Ending(s.newEnding)
    && PrintableFile(s.fd) && DashFreeHunks(s.fd.hunks) && ShortHunks(s.fd.hunks)
  }

  ghost predicate GoodSections(sections: seq<Section>, first: bool) {
    forall k | 0 <= k < |sections| :: GoodSection(sections[k], first && k == 0)
  }

  lemma PrintedName(prefix: string, path: Option<string>, ending: string)
    requires prefix == "a/" || prefix == "b/"
    requires (path.Some? ==> PrintablePath(path.value)) && Ending(ending)
    ensures HeaderPath(PrintPath(prefix, path) + ending) == path
  {
    var name := PrintPath(prefix, path);
    assert Bare(name) && '\t' !in name by {
      if path.Some? && path.value != "" { assert name[|name| - 1] == path.value[|path.value| - 1]; }
    }
    HeaderPathExactly("", name, ending);
    assert "" + name + ending == name + ending;
    if path.Some? { assert name != "/dev/null" && name[..2] == prefix && name[2..] == path.value by { assert name[0] == prefix[0]; } }
  }

  lemma GoodBehind(sections: seq<Section>, first: bool)
    requires sections != [] && GoodSections(sections, first)
    ensures GoodSection(sections[0], first) && GoodSections(sections[1..], false)
  {
    var rest := sections[1..];
    forall k | 0 <= k < |rest| ensures GoodSection(rest[k], false && k == 0) { assert rest[k] == sections[k + 1]; }
  }

  lemma SectionsFollowHunks(sections: seq<Section>)
    requires GoodSections(sections, false)
    ensures AfterHunks(GitLines(sections))
  {
    if sections != [] {
      var s := sections[0];
      assert GoodSection(s, false);
      if s.before == [] {
        assert GitLines(sections)[0] == "--- " + (PrintPath("a/", s.fd.oldPath) + s.oldEnding);
      } else {
        assert GitLines(sections)[0] == s.before[0];
      }
    }
  }

  lemma SectionStep(s: Section, first: bool, more: seq<string>, files: seq<FileDiff>)
    requires GoodSection(s, first) && AfterHunks(more) && ParseFiles(more) == Ok(files)
    ensures ParseFiles(SectionLines(s) + more) == Ok([s.fd] + files)
  {
    hide HeaderPath, PrintPath, PrintHunks, ParseHunks, ParseFiles, PrintablePath, ShortHunk, DashFreeHunk, PrintableHunk, Passed, Ending, AfterHunks;
    var before, after, hunkLines := PrintPath("a/", s.fd.oldPath) + s.oldEnding, PrintPath("b/", s.fd.newPath) + s.newEnding, PrintHunks(s.fd.hunks);
    PrintedName("a/", s.fd.oldPath, s.oldEnding);
    PrintedName("b/", s.fd.newPath, s.newEnding);
    HunksRoundTrip(s.fd.hunks, more);
    FileStep(before, after, s.fd, ParseFiles(more), hunkLines, more);
    var names := ["--- " + before, "+++ " + after];
    assert SectionLines(s) + more == s.before + (names + (hunkLines + more));
    PassedLines(s.before, names + (hunkLines + more));
  }

  lemma {:induction false} SectionsParse(sections: seq<Section>, first: bool)
    requires GoodSections(sections, first)
    ensures ParseFiles(GitLines(sections)) == Ok(FilesOf(sections))
  {
    if sections != [] {
      hide SectionLines, GoodSection, AfterHunks;
      GoodBehind(sections, first);
      SectionsParse(sections[1..], false);
      SectionsFollowHunks(sections[1..]);
      SectionStep(sections[0], first, GitLines(sections[1..]), FilesOf(sections[1..]));
    }
  }

  /** A printed diff with header lines and blank lines put before its files, and endings behind its file names, is read as
      the diff alone: nothing of what was put in is left, and nothing of the diff is lost. */
  lemma GitDiffIsRead(sections: seq<Section>)
    requires sections != [] && GoodSections(sections, true)
    requires NewlineFree(GitLines(sections)) && CrFreeLines(GitLines(sections))
    ensures Parse(Unlines(GitLines(sections))) == Ok(FilesOf(sections))
  {
    var lines := GitLines(sections);
    SectionsParse(sections, true);
    TextLinesUnlines(lines);
    assert ChopLines(lines) == lines;
    assert FilesOf(sections) != [];
    if IsBlank(Unlines(lines)) {
      BlankReadsNothing(lines);
      assert false;
    }
  }

  lemma BlankReadsNothing(lines: seq<string>)
    requires IsBlank(Unlines(lines))
    ensures ParseFiles(lines) == Ok([])
  {
    BlankLines(lines);
    PassedLines(lines, []);
    assert lines + [] == lines;
  }

  lemma {:induction false} BlankLines(lines: seq<string>)
    requires IsBlank(Unlines(lines))
    ensures forall line | line in lines :: Passed(line)
  {
    if lines != [] {
      var text := Unlines(lines);
      forall k | 0 <= k < |lines[0]| ensures IsSpace(lines[0][k]) { assert text[k] == lines[0][k]; }
      var rest := Unlines(lines[1..]);
      forall k | 0 <= k < |rest| ensures IsSpace(rest[k]) { assert text[|lines[0]| + 1 + k] == rest[k]; }
      BlankLines(lines[1..]);
      assert lines == [lines[0]] + lines[1..];
    }
  }
}
