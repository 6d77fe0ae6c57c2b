/** What a diff that passes the check is known to be. */
module Tier3Laws {
  import opened Wrappers
  import opened Diffs
  import opened DiffLaws
  import opened DiffLimit
  import opened DiffParse
  import opened DiffText
  import opened Splice
  import opened Tier3Check
  import opened Tier3Lines
  import opened Tier3Reports

  /** Stays where it is, is kept, and its one path is harmless and declared for the action. */
  predicate GoodFile(policy: Policy, fd: FileDiff) {
    && fd.newPath.Some? && (fd.oldPath.Some? ==> fd.oldPath == fd.newPath)
    && var p := fd.newPath.value;
      !policy.isUnsafe(p) && !policy.isProtected(p) && p in policy.declared && policy.isAllowed(p)
  }

  /** Few files, few added and removed lines, and no secret in the texts of the added ones. */
  ghost predicate Small(policy: Policy, files: seq<FileDiff>) {
    && |files| <= policy.maxFiles
    && (exists n: nat :: ChangesLines(files, n) && n <= policy.maxChanged)
    && (exists texts :: Adds(files, texts) && policy.secrets(texts) == 0)
  }

  /** No file that shrinks comes before one that does not. */
  predicate AdditiveFirst(files: seq<FileDiff>) {
    forall i, j | 0 <= i < j < |files| :: Net(files[i].hunks) < 0 ==> Net(files[j].hunks) < 0
  }

  predicate DistinctPaths(files: seq<FileDiff>) {
    forall i, j | 0 <= i < j < |files| :: files[i].Path() != files[j].Path()
  }

  predicate AllApply(files: seq<FileDiff>, read: string -> Reading)
    requires Writable(files)
  {
    forall fd | fd in files :: AllWellformed(fd.hunks) && ApplyOne(fd, read).Some?
  }

  /** Every file can be read again and is changed by its diff. */
  predicate AllChange(files: seq<FileDiff>, read: string -> Reading, again: string -> Reading)
    requires Writable(files)
  {
    forall fd | fd in files :: AllWellformed(fd.hunks) && Changes(fd, ApplyOne(fd, read), again(fd.Path()))
  }

  predicate Changes(fd: FileDiff, content: Option<Option<string>>, now: Reading) {
    !now.Truncated? && !(content.Some? && content.value.Some? && now == Text(content.value.value))
  }

  /** The lines the hunks are applied to: none for a new file, which is not looked up, and the whole file for any other. */
  predicate Finds(fd: FileDiff, read: string -> Reading, before: seq<string>) {
    if fd.oldPath.None? then before == []
    else read(fd.oldPath.value).Text? && before == SplitLines(read(fd.oldPath.value).text)
  }

  /** The text the hunks make of them. */
  ghost predicate Gets(fd: FileDiff, read: string -> Reading, text: string) {
    AllWellformed(fd.hunks) && exists before, after :: Finds(fd, read, before) && ApplyLines(before, fd.hunks) == Ok(after) && text == Join(after)
  }

  /** Every hunk applies, and what comes of it differs from what is there, which can be read. */
  ghost predicate Rewrites(fd: FileDiff, read: string -> Reading, again: string -> Reading) {
    fd.newPath.Some? && exists text :: Gets(fd, read, text) && !again(fd.newPath.value).Truncated? && again(fd.newPath.value) != Text(text)
  }

  ghost predicate Acceptable(files: seq<FileDiff>, policy: Policy, read: string -> Reading, again: string -> Reading) {
    && (forall fd | fd in files :: GoodFile(policy, fd) && Rewrites(fd, read, again))
    && Small(policy, files) && AdditiveFirst(files) && DistinctPaths(files)
  }

  // ---- rule by rule ----------------------------------------------------------------------------

  lemma {:induction false} NoReports<T>(items: seq<T>, rule: T -> seq<Violation>)
    ensures Reports(items, rule) == [] <==> forall x | x in items :: rule(x) == []
  {
    if items != [] {
      NoReports(items[..|items| - 1], rule);
      assert items == items[..|items| - 1] + [items[|items| - 1]];
    }
  }

  lemma OneName(fd: FileDiff)
    requires !fd.IsRename() && !fd.IsDeleted()
    ensures fd.Path() == fd.newPath.value && forall p :: p in NamedPaths(fd) <==> p == fd.newPath.value
  {}

  lemma NoFileReports(policy: Policy, fd: FileDiff)
    ensures FileRule(policy, fd) == [] && ScopeRule(policy, fd.Path()) == [] <==> GoodFile(policy, fd)
  {
    hide NamedPaths;
    assert GoodFile(policy, fd) ==> !fd.IsRename() && !fd.IsDeleted();
    if !fd.IsRename() && !fd.IsDeleted() {
      OneName(fd);
      var p, rule := fd.Path(), PathRuleOf(policy);
      NoReports(NamedPaths(fd), rule);
      assert rule(p) == [] <==> !policy.isUnsafe(p) && !policy.isProtected(p);
      assert Reports(NamedPaths(fd), rule) == [] <==> rule(p) == [];
    }
  }

  lemma NoReportsAtAll(policy: Policy, files: seq<FileDiff>)
    ensures Reports(files, FileRuleOf(policy)) == [] && Reports(files, ScopeRuleOf(policy)) == []
      <==> forall fd | fd in files :: GoodFile(policy, fd)
  {
    NoReports(files, FileRuleOf(policy));
    NoReports(files, ScopeRuleOf(policy));
    forall fd: FileDiff
      ensures FileRuleOf(policy)(fd) == [] && ScopeRuleOf(policy)(fd) == [] <==> GoodFile(policy, fd)
    {
      NoFileReports(policy, fd);
    }
  }

  lemma {:induction false} NoOrderReport(files: seq<FileDiff>, shrinking: bool)
    requires forall fd | fd in files :: !fd.IsDeleted()
    ensures OrderRule(files, shrinking) == []
      <==> AdditiveFirst(files) && (shrinking ==> forall fd | fd in files :: Net(fd.hunks) < 0)
  {
    if files != [] {
      var first, rest := files[0], files[1..];
      assert files == [first] + rest;
      NoOrderReport(rest, shrinking || Net(first.hunks) < 0);
      assert AdditiveFirst(files) <==>
        AdditiveFirst(rest) && (Net(first.hunks) < 0 ==> forall fd | fd in rest :: Net(fd.hunks) < 0) by { FirstAndRest(files); }
    }
  }

  lemma FirstAndRest(files: seq<FileDiff>)
    requires files != []
    ensures AdditiveFirst(files) <==>
      AdditiveFirst(files[1..]) && (Net(files[0].hunks) < 0 ==> forall fd | fd in files[1..] :: Net(fd.hunks) < 0)
  {
    var rest := files[1..];
    assert forall k | 0 < k < |files| :: files[k] == rest[k - 1];
    if AdditiveFirst(rest) && (Net(files[0].hunks) < 0 ==> forall fd | fd in rest :: Net(fd.hunks) < 0) {
      forall i, j | 0 <= i < j < |files| && Net(files[i].hunks) < 0 ensures Net(files[j].hunks) < 0 {
        assert files[j] == rest[j - 1] && rest[j - 1] in rest;
        if i > 0 { assert files[i] == rest[i - 1]; }
      }
    }
    if AdditiveFirst(files) {
      forall i, j | 0 <= i < j < |rest| && Net(rest[i].hunks) < 0 ensures Net(rest[j].hunks) < 0 {
        assert rest[i] == files[i + 1] && rest[j] == files[j + 1];
      }
    }
  }

  // ---- applying --------------------------------------------------------------------------------

  predicate Entries(files: seq<FileDiff>, read: string -> Reading, contents: Contents)
    requires Writable(files)
  {
    && |contents| == |files|
    && forall k | 0 <= k < |files| ::
      && AllWellformed(files[k].hunks)
      && ApplyOne(files[k], read).Some? && contents[k] == (files[k].Path(), ApplyOne(files[k], read).value)
  }

  predicate Fresh(files: seq<FileDiff>, done: Contents) {
    forall fd | fd in files :: !Written(done, fd.Path())
  }

  lemma WrittenNext(done: Contents, entry: (string, Option<string>), p: string)
    ensures Written(done + [entry], p) <==> Written(done, p) || p == entry.0
  {
    if p == entry.0 { assert (done + [entry])[|done|].0 == p; }
    if Written(done, p) {
      var k :| 0 <= k < |done| && done[k].0 == p;
      assert (done + [entry])[k].0 == p;
    }
  }

  predicate Elsewhere(fd: FileDiff, files: seq<FileDiff>) { forall other | other in files :: other.Path() != fd.Path() }

  lemma DistinctNext(fd: FileDiff, rest: seq<FileDiff>)
    ensures DistinctPaths([fd] + rest) <==> Elsewhere(fd, rest) && DistinctPaths(rest)
  {
    var files := [fd] + rest;
    if DistinctPaths(files) {
      forall other | other in rest ensures other.Path() != fd.Path() {
        var k :| 0 <= k < |rest| && rest[k] == other;
        assert files[0] == fd && files[k + 1] == other;
      }
      forall i, j | 0 <= i < j < |rest| ensures rest[i].Path() != rest[j].Path() {
        assert rest[i] == files[i + 1] && rest[j] == files[j + 1];
      }
    }
  }

  lemma FreshNext(fd: FileDiff, rest: seq<FileDiff>, done: Contents, content: Option<string>)
    ensures Fresh([fd] + rest, done) && DistinctPaths([fd] + rest)
      <==> !Written(done, fd.Path()) && Fresh(rest, done + [(fd.Path(), content)]) && DistinctPaths(rest)
  {
    DistinctNext(fd, rest);
    forall p: string ensures Written(done + [(fd.Path(), content)], p) <==> Written(done, p) || p == fd.Path() {
      WrittenNext(done, (fd.Path(), content), p);
    }
    assert Fresh([fd] + rest, done) <==> !Written(done, fd.Path()) && Fresh(rest, done);
  }

  lemma {:induction false} AppliesExactly(files: seq<FileDiff>, read: string -> Reading, done: Contents)
    requires Writable(files)
    ensures ApplyFrom(files, read, done).Some? <==> AllApply(files, read) && DistinctPaths(files) && Fresh(files, done)
  {
    if files != [] {
      var fd, rest := files[0], files[1..];
      assert files == [fd] + rest && AllWellformed(fd.hunks);
      var one := ApplyOne(fd, read);
      FreshNext(fd, rest, done, if one.Some? then one.value else None);
      assert AllApply(files, read) <==> one.Some? && AllApply(rest, read);
      if one.Some? { AppliesExactly(rest, read, done + [(fd.Path(), one.value)]); }
    }
  }

  lemma FirstEntry(files: seq<FileDiff>, read: string -> Reading, contents: Contents)
    requires Writable(files) && files != [] && contents != [] && AllWellformed(files[0].hunks)
    requires ApplyOne(files[0], read).Some? && contents[0] == (files[0].Path(), ApplyOne(files[0], read).value)
    requires Entries(files[1..], read, contents[1..])
    ensures Entries(files, read, contents)
  {
    forall k | 0 < k < |files|
      ensures AllWellformed(files[k].hunks)
      ensures ApplyOne(files[k], read).Some? && contents[k] == (files[k].Path(), ApplyOne(files[k], read).value)
    {
      assert files[k] == files[1..][k - 1] && contents[k] == contents[1..][k - 1];
    }
  }

  lemma {:induction false} AppliedEntries(files: seq<FileDiff>, read: string -> Reading, done: Contents, all: Contents)
    requires Writable(files) && ApplyFrom(files, read, done) == Some(all)
    ensures |all| >= |done| && all[..|done|] == done && Entries(files, read, all[|done|..])
  {
    if files == [] {
      assert all[..|done|] == done && all[|done|..] == [];
    } else {
      var fd, n := files[0], |done|;
      assert AllWellformed(fd.hunks) by { assert fd in files; }
      var entry := (fd.Path(), ApplyOne(fd, read).value);
      AppliedEntries(files[1..], read, done + [entry], all);
      assert all[..n] == (done + [entry])[..n] == done;
      assert all[n] == (done + [entry])[n] && all[n..][1..] == all[n + 1..];
      FirstEntry(files, read, all[n..]);
    }
  }

  lemma {:induction false} NothingUnchanged(contents: Contents, read: string -> Reading)
    ensures NoOps(contents, read) == Some([]) <==> forall k | 0 <= k < |contents| :: EntryChanges(contents[k], read)
  {
    if contents != [] {
      var n := |contents| - 1;
      NothingUnchanged(contents[..n], read);
      assert forall k | 0 <= k < n :: contents[..n][k] == contents[k];
      var (p, content) := contents[n];
      var found, more := NoOps(contents[..n], read), When(content.Some? && read(p) == Text(content.value), NoOp, p);
      if found.Some? { assert found.value + more == [] <==> found.value == [] && more == []; }
    }
  }

  predicate EntryChanges(entry: (string, Option<string>), read: string -> Reading) {
    !read(entry.0).Truncated? && !(entry.1.Some? && read(entry.0) == Text(entry.1.value))
  }

  lemma ComparedIsChanged(files: seq<FileDiff>, read: string -> Reading, again: string -> Reading, contents: Contents)
    requires Writable(files) && Entries(files, read, contents)
    ensures NoOps(contents, again) == Some([]) <==> AllChange(files, read, again)
  {
    NothingUnchanged(contents, again);
    forall k | 0 <= k < |files|
      ensures AllWellformed(files[k].hunks)
      ensures EntryChanges(contents[k], again) <==> Changes(files[k], ApplyOne(files[k], read), again(files[k].Path()))
    {}
    if AllChange(files, read, again) {
      forall k | 0 <= k < |files| ensures EntryChanges(contents[k], again) { assert files[k] in files; }
    }
  }

  // ---- the promises ----------------------------------------------------------------------------

  lemma NoSizeReport(policy: Policy, files: seq<FileDiff>)
    ensures SizeRule(policy, files) == [] <==> Small(policy, files)
  {
    hide Adds, ChangesLines, TotalChanged, AddedLines;
    ChangedLinesExactly(files, TotalChanged(files));
    AddedLinesExactly(files, AddedLines(files));
    if n: nat :| ChangesLines(files, n) && n <= policy.maxChanged { ChangedLinesExactly(files, n); }
    if texts :| Adds(files, texts) && policy.secrets(texts) == 0 { AddedLinesExactly(files, texts); }
  }

  lemma NoneOfFour(a: seq<Violation>, b: seq<Violation>, c: seq<Violation>, d: seq<Violation>)
    ensures a + b + c + d == [] <==> a == [] && b == [] && c == [] && d == []
  {}

  lemma NothingBeforeReading(files: seq<FileDiff>, policy: Policy)
    ensures BeforeReading(policy, files) == []
      <==> (forall fd | fd in files :: GoodFile(policy, fd)) && Small(policy, files) && AdditiveFirst(files)
  {
    NoneOfFour(Reports(files, FileRuleOf(policy)), Reports(files, ScopeRuleOf(policy)), SizeRule(policy, files),
      OrderRule(files, false));
    NoReportsAtAll(policy, files);
    NoSizeReport(policy, files);
    if forall fd | fd in files :: GoodFile(policy, fd) {
      forall fd | fd in files ensures !fd.IsDeleted() { assert GoodFile(policy, fd); }
      NoOrderReport(files, false);
    }
  }

  predicate Passes(check: Option<Check>) { check.Some? && check.value.violations == [] }

  lemma AppliedIsCompared(files: seq<FileDiff>, read: string -> Reading, again: string -> Reading, contents: Contents)
    requires Writable(files) && ApplyFrom(files, read, []) == Some(contents)
    ensures Entries(files, read, contents) && (NoOps(contents, again) == Some([]) <==> AllChange(files, read, again))
  {
    AppliedEntries(files, read, [], contents);
    assert contents[0..] == contents;
    ComparedIsChanged(files, read, again, contents);
  }

  lemma PassesInSteps(files: seq<FileDiff>, found: seq<Violation>, read: string -> Reading, again: string -> Reading)
    requires Writable(files)
    ensures Passes(CheckContents(files, found, read, again))
      <==> found == [] && ApplyFrom(files, read, []).Some? && NoOps(ApplyFrom(files, read, []).value, again) == Some([])
  {
    if found == [] {
      assert !OffLimits(found);
    } else {
      assert forall more: seq<Violation> :: found + more != [] by {
        forall more: seq<Violation> ensures found + more != [] { assert (found + more)[0] == found[0]; }
      }
    }
  }

  lemma GetsExactly(fd: FileDiff, read: string -> Reading, text: string)
    requires AllWellformed(fd.hunks) && fd.newPath.Some?
    ensures Gets(fd, read, text) <==> ApplyOne(fd, read) == Some(Some(text))
  {
    hide Join, SplitLines;
    if ApplyOne(fd, read) == Some(Some(text)) {
      var before := Lines(SplitContent(Base(fd, read).value));
      assert Finds(fd, read, before);
    }
  }

  lemma KeptHasText(fd: FileDiff, read: string -> Reading)
    requires AllWellformed(fd.hunks) && fd.newPath.Some?
    ensures ApplyOne(fd, read).Some? ==> ApplyOne(fd, read).value.Some?
  {}

  lemma AllRewriteExactly(files: seq<FileDiff>, policy: Policy, read: string -> Reading, again: string -> Reading)
    requires Writable(files) && forall fd | fd in files :: GoodFile(policy, fd)
    ensures AllApply(files, read) && AllChange(files, read, again) <==> forall fd | fd in files :: Rewrites(fd, read, again)
  {
    hide Rewrites, GoodFile, ApplyOne, Changes;
    forall fd | fd in files
      ensures AllWellformed(fd.hunks)
      ensures Rewrites(fd, read, again) <==> ApplyOne(fd, read).Some? && Changes(fd, ApplyOne(fd, read), again(fd.Path()))
    {
      RewritesExactly(policy, fd, read, again);
    }
  }

  lemma RewritesExactly(policy: Policy, fd: FileDiff, read: string -> Reading, again: string -> Reading)
    requires AllWellformed(fd.hunks) && GoodFile(policy, fd)
    ensures Rewrites(fd, read, again) <==> ApplyOne(fd, read).Some? && Changes(fd, ApplyOne(fd, read), again(fd.Path()))
  {
    hide ApplyText, Gets;
    forall text: string ensures Gets(fd, read, text) <==> ApplyOne(fd, read) == Some(Some(text)) { GetsExactly(fd, read, text); }
    var content := ApplyOne(fd, read);
    assert content.Some? ==> content.value.Some? by { KeptHasText(fd, read); }
  }

  /** No report exactly when every rule holds. */
  lemma PassesExactly(files: seq<FileDiff>, policy: Policy, read: string -> Reading, again: string -> Reading)
    requires Writable(files)
    ensures Passes(CheckFiles(files, policy, read, again)) <==> Acceptable(files, policy, read, again)
  {
    hide Rewrites, GoodFile, Small, AdditiveFirst, DistinctPaths, BeforeReading, ApplyOne, Changes, AllApply, AllChange, ApplyFrom, CheckContents;
    PassesInSteps(files, BeforeReading(policy, files), read, again);
    NothingBeforeReading(files, policy);
    AppliesExactly(files, read, []);
    assert Fresh(files, []);
    var contents := ApplyFrom(files, read, []);
    if contents.Some? { AppliedIsCompared(files, read, again, contents.value); }
    if forall fd | fd in files :: GoodFile(policy, fd) { AllRewriteExactly(files, policy, read, again); }
  }

  /** The whole check passes exactly when the text is a diff and every rule holds of it. */
  lemma CheckPassesExactly(text: string, policy: Policy, read: string -> Reading, again: string -> Reading)
    ensures Passes(CheckOf(text, policy, read, again))
      <==> Parse(text).Ok? && Acceptable(Parse(text).value, policy, read, again)
  {
    ParsedIsWritable(text);
    if Parse(text).Ok? { PassesExactly(Parse(text).value, policy, read, again); }
  }

  /** The entry holds the file's lines with every hunk spliced in, and the line count changed by the diff's own. */
  predicate Commits(fd: FileDiff, read: string -> Reading, entry: (string, Option<string>), before: seq<string>, after: seq<string>) {
    && AllWellformed(fd.hunks) && Finds(fd, read, before) && ApplyLines(before, fd.hunks) == Ok(after)
    && fd.newPath == Some(entry.0) && entry.1 == Some(Join(after)) && |after| == |before| + Net(fd.hunks)
  }

  ghost predicate Committed(fd: FileDiff, read: string -> Reading, entry: (string, Option<string>)) {
    exists before, after :: Commits(fd, read, entry, before, after)
  }

  lemma OneCommits(fd: FileDiff, read: string -> Reading, entry: (string, Option<string>))
    requires AllWellformed(fd.hunks) && !fd.IsDeleted() && !fd.IsRename() && ApplyOne(fd, read).Some?
    requires entry == (fd.Path(), ApplyOne(fd, read).value)
    ensures Committed(fd, read, entry)
  {
    var before := Lines(SplitContent(Base(fd, read).value));
    var after := ApplyLines(before, fd.hunks).value;
    ApplyChangesLineCount(before, fd.hunks, after);
    assert Commits(fd, read, entry, before, after);
  }

  lemma PassedEntries(files: seq<FileDiff>, policy: Policy, read: string -> Reading, again: string -> Reading, check: Check)
    requires Writable(files) && CheckFiles(files, policy, read, again) == Some(check) && check.violations == []
    ensures Entries(files, read, check.contents) && AdditiveFirst(files) && AllChange(files, read, again) && forall fd | fd in files :: !fd.IsDeleted() && !fd.IsRename()
  {
    PassesInSteps(files, BeforeReading(policy, files), read, again);
    NothingBeforeReading(files, policy);
    AppliedIsCompared(files, read, again, check.contents);
    forall fd | fd in files ensures !fd.IsDeleted() && !fd.IsRename() { assert GoodFile(policy, fd); }
  }

  /** What a passing check hands on: each file of the diff, in order, with its hunks applied to what was read; files
      that lose lines all come last. */
  lemma PassedContents(files: seq<FileDiff>, policy: Policy, read: string -> Reading, again: string -> Reading, check: Check)
    requires Writable(files) && CheckFiles(files, policy, read, again) == Some(check) && check.violations == []
    ensures |check.contents| == |files| && AdditiveFirst(files)
    ensures forall k | 0 <= k < |files| :: Committed(files[k], read, check.contents[k])
  {
    PassedEntries(files, policy, read, again, check);
    EntriesAreCommitted(files, read, check.contents);
  }

  lemma EntriesAreCommitted(files: seq<FileDiff>, read: string -> Reading, contents: Contents)
    requires Writable(files) && Entries(files, read, contents) && forall fd | fd in files :: !fd.IsDeleted() && !fd.IsRename()
    ensures forall k | 0 <= k < |files| :: Committed(files[k], read, contents[k])
  {
    forall k | 0 <= k < |files| ensures Committed(files[k], read, contents[k]) { OneCommits(files[k], read, contents[k]); }
  }

  /** The verdict, whatever the files hold. */
  ghost predicate Unread(files: seq<FileDiff>, policy: Policy, check: Check)
    requires Writable(files)
  {
    && check.violations != [] && check.contents == []
    && forall read, again :: CheckFiles(files, policy, read, again) == Some(check)
  }

  /** A diff that moves a file, or names a path that is unsafe or protected, is refused without any file being read. */
  lemma NothingReadOffLimits(files: seq<FileDiff>, policy: Policy)
    requires Writable(files) && Dangerous(policy, files)
    ensures exists check: Check :: Unread(files, policy, check)
  {
    OffLimitsExactly(policy, files);
    var check := Check(BeforeReading(policy, files), Some(files), []);
    assert Unread(files, policy, check);
  }

  // ---- every report ----------------------------------------------------------------------------

  predicate Unchanged(entry: (string, Option<string>), read: string -> Reading, p: string) {
    entry.0 == p && entry.1.Some? && read(p) == Text(entry.1.value)
  }

  lemma {:induction false} InNoOps(contents: Contents, read: string -> Reading, v: Violation)
    requires NoOps(contents, read).Some?
    ensures v in NoOps(contents, read).value <==> v.code == NoOp && exists k :: 0 <= k < |contents| && Unchanged(contents[k], read, v.path)
  {
    if contents != [] {
      var n := |contents| - 1;
      InNoOps(contents[..n], read, v);
      assert forall k | 0 <= k < n :: contents[..n][k] == contents[k];
    }
  }

  /** The diff's own content for this path is what is there. */
  predicate Same(files: seq<FileDiff>, read: string -> Reading, again: string -> Reading, p: string)
    requires Writable(files)
  {
    exists fd :: fd in files && AllWellformed(fd.hunks) && fd.Path() == p && ApplyOne(fd, read).Some? && ApplyOne(fd, read).value.Some?
                 && again(p) == Text(ApplyOne(fd, read).value.value)
  }

  lemma SameIsReported(files: seq<FileDiff>, read: string -> Reading, again: string -> Reading, contents: Contents, v: Violation)
    requires Writable(files) && Entries(files, read, contents) && NoOps(contents, again).Some?
    ensures v in NoOps(contents, again).value <==> v.code == NoOp && Same(files, read, again, v.path)
  {
    hide ApplyOne, NoOps;
    InNoOps(contents, again, v);
    forall k | 0 <= k < |files|
      ensures AllWellformed(files[k].hunks)
      ensures Unchanged(contents[k], again, v.path) <==>
        files[k].Path() == v.path && ApplyOne(files[k], read).value.Some? && again(v.path) == Text(ApplyOne(files[k], read).value.value)
    {}
    if k :| 0 <= k < |contents| && Unchanged(contents[k], again, v.path) { assert files[k] in files; }
  }

  /** What the check reports, and nothing else: the reports made without reading; unless the diff is off limits, that it
      does not apply when a file does not or comes twice; and else each path whose content is there already. */
  lemma ReportsExactly(files: seq<FileDiff>, policy: Policy, read: string -> Reading, again: string -> Reading, check: Check, v: Violation)
    requires Writable(files) && CheckFiles(files, policy, read, again) == Some(check)
    ensures var applies := AllApply(files, read) && DistinctPaths(files);
      v in check.violations <==>
        || Reported(policy, files, v)
        || (!Dangerous(policy, files) && !applies && v == Violation(DoesNotApply, ""))
        || (!Dangerous(policy, files) && applies && v.code == NoOp && Same(files, read, again, v.path))
  {
    hide BeforeReading, Reported, Dangerous, AllApply, DistinctPaths, Same, NoOps, ApplyFrom, OffLimits;
    ReportedExactly(policy, files, v);
    OffLimitsExactly(policy, files);
    AppliesExactly(files, read, []);
    assert Fresh(files, []);
    var contents := ApplyFrom(files, read, []);
    if contents.Some? {
      AppliedIsCompared(files, read, again, contents.value);
      if !OffLimits(BeforeReading(policy, files)) { SameIsReported(files, read, again, contents.value, v); }
    }
  }

  // ---- where the check breaks its word ---------------------------------------------------------

  lemma {:induction false} ComparingStops(contents: Contents, read: string -> Reading)
    ensures NoOps(contents, read).None? <==> exists k :: 0 <= k < |contents| && read(contents[k].0).Truncated?
  {
    if contents != [] {
      var n := |contents| - 1;
      ComparingStops(contents[..n], read);
      assert forall k | 0 <= k < n :: contents[..n][k] == contents[k];
    }
  }

  /** The comparison would read a file that is over the size limit by then. */
  predicate TooLong(files: seq<FileDiff>, again: string -> Reading) {
    exists fd :: fd in files && again(fd.Path()).Truncated?
  }

  lemma ComparingStopsAtFile(files: seq<FileDiff>, read: string -> Reading, again: string -> Reading, contents: Contents)
    requires Writable(files) && Entries(files, read, contents)
    ensures NoOps(contents, again).None? <==> TooLong(files, again)
  {
    ComparingStops(contents, again);
    if TooLong(files, again) {
      var fd :| fd in files && again(fd.Path()).Truncated?;
      var k :| 0 <= k < |files| && files[k] == fd;
      assert again(contents[k].0).Truncated?;
    }
    if NoOps(contents, again).None? {
      var k :| 0 <= k < |contents| && again(contents[k].0).Truncated?;
      assert files[k] in files;
    }
  }

  /** No path is off limits, and every file applies, once. */
  ghost predicate Compared(files: seq<FileDiff>, policy: Policy, read: string -> Reading)
    requires Writable(files)
  {
    !Dangerous(policy, files) && AllApply(files, read) && DistinctPaths(files)
  }

  lemma RaisesExactly(files: seq<FileDiff>, policy: Policy, read: string -> Reading, again: string -> Reading)
    requires Writable(files)
    ensures CheckFiles(files, policy, read, again).None? <==> Compared(files, policy, read) && TooLong(files, again)
  {
    hide Dangerous, BeforeReading;
    OffLimitsExactly(policy, files);
    AppliesExactly(files, read, []);
    assert Fresh(files, []);
    var contents := ApplyFrom(files, read, []);
    if contents.Some? {
      AppliedIsCompared(files, read, again, contents.value);
      ComparingStopsAtFile(files, read, again, contents.value);
    }
  }

  /** The check lets an error through, although it never raises, exactly when a hunk header is too long to read and the
      lines up to the end of its hunk would be a diff without it, or when it gets as far as comparing and a path of the
      diff is too long to read by then. */
  lemma CheckRaisesExactly(text: string, policy: Policy, read: string -> Reading, again: string -> Reading)
    ensures CheckOf(text, policy, read, again).None?
      <==> !IsBlank(text) && (Reaches(TextLines(text)) || ComparesTooLong(Parse(text), policy, read, again))
  {
    hide Reaches, CheckFiles;
    if !IsBlank(text) { TooLongExactly(text); }
    ParsedIsWritable(text);
    if Parse(text).Ok? { RaisesExactly(Parse(text).value, policy, read, again); }
  }

  ghost predicate ComparesTooLong(parsed: Result<seq<FileDiff>, ParseError>, policy: Policy, read: string -> Reading, again: string -> Reading) {
    parsed.Ok? && Writable(parsed.value) && Compared(parsed.value, policy, read) && TooLong(parsed.value, again)
  }

  /** At an input: with more digits than the interpreter takes, the check raises whatever the files hold. */
  lemma LongHeaderRaises(digits: string, policy: Policy, read: string -> Reading, again: string -> Reading)
    requires AllDigits(digits) && |digits| > MAX_DIGITS
    ensures CheckOf(LongDiff(digits), policy, read, again).None?
  {
    LongDiffIsTooLong(digits);
  }

  lemma RenameIsDangerous(files: seq<FileDiff>, policy: Policy, fd: FileDiff)
    requires fd in files
    ensures fd.IsRename() ==> Dangerous(policy, files)
  {
    assert Moves(fd) <==> fd.IsRename();
  }

  lemma OldFileWasRead(files: seq<FileDiff>, policy: Policy, read: string -> Reading, fd: FileDiff)
    requires Writable(files) && Compared(files, policy, read) && fd in files && !fd.IsNew()
    ensures !read(fd.Path()).Truncated?
  {
    hide ApplyText, Dangerous, DistinctPaths, AllWellformed;
    RenameIsDangerous(files, policy, fd);
    assert fd.Path() == fd.oldPath.value;
    assert AllWellformed(fd.hunks) && ApplyOne(fd, read).Some?;
    assert Base(fd, read).Some?;
  }

  /** When both readings of a file agree, comparing can only raise over a file marked as new: every other one was read
      before. */
  lemma OnlyNewFilesRaise(files: seq<FileDiff>, policy: Policy, read: string -> Reading)
    requires Writable(files)
    ensures CheckFiles(files, policy, read, read).None?
      <==> Compared(files, policy, read) && exists fd :: fd in files && fd.IsNew() && read(fd.Path()).Truncated?
  {
    RaisesExactly(files, policy, read, read);
    if Compared(files, policy, read) {
      forall fd | fd in files && !fd.IsNew() ensures !read(fd.Path()).Truncated? { OldFileWasRead(files, policy, read, fd); }
    }
  }

  /** What a file marked as new would write differs from what its path holds. */
  predicate Overwrites(fd: FileDiff, entry: (string, Option<string>), again: string -> Reading) {
    fd.IsNew() && entry.1.Some? && again(entry.0).Text? && again(entry.0).text != entry.1.value
  }

  lemma ChangedIsOverwritten(fd: FileDiff, read: string -> Reading, again: string -> Reading, entry: (string, Option<string>))
    requires AllWellformed(fd.hunks) && !fd.IsDeleted() && ApplyOne(fd, read).Some?
    requires entry == (fd.Path(), ApplyOne(fd, read).value) && Changes(fd, ApplyOne(fd, read), again(fd.Path()))
    ensures Overwrites(fd, entry, again) <==> fd.IsNew() && again(fd.Path()).Text?
  {}

  /** A passing check overwrites a file through a diff that calls it new exactly when that path can be read. */
  lemma OverwritesExactly(files: seq<FileDiff>, policy: Policy, read: string -> Reading, again: string -> Reading, check: Check)
    requires Writable(files) && CheckFiles(files, policy, read, again) == Some(check) && check.violations == []
    ensures |check.contents| == |files|
    ensures forall k | 0 <= k < |files| ::
      Overwrites(files[k], check.contents[k], again) <==> files[k].IsNew() && again(files[k].Path()).Text?
  {
    hide CheckFiles, ApplyOne, Changes, Overwrites, AdditiveFirst;
    PassedEntries(files, policy, read, again, check);
    forall k | 0 <= k < |files|
      ensures Overwrites(files[k], check.contents[k], again) <==> files[k].IsNew() && again(files[k].Path()).Text?
    {
      var fd := files[k];
      assert fd in files;
      ChangedIsOverwritten(fd, read, again, check.contents[k]);
    }
  }

  /** One file, called new, with one line. */
  const NEW_FILE := FileDiff(None, Some("f"), [Hunk(0, 1, ["+x"])])

  /** The least a policy has to allow for it. */
  ghost predicate AllowsNewFile(policy: Policy) {
    GoodFile(policy, NEW_FILE) && Small(policy, [NEW_FILE])
  }

  lemma NewFileApplies(read: string -> Reading)
    ensures Wellformed(NEW_FILE.hunks[0]) && AllWellformed(NEW_FILE.hunks)
    ensures ApplyOne(NEW_FILE, read) == Some(Some("x\n"))
  {
    hide Apply;
    var h := NEW_FILE.hunks[0];
    assert h.lines == [] + ["+x"] && NEW_FILE.hunks == [h];
    SidesSnoc([], "+x");
    assert "+x"[1..] + "\n" == "x\n";
    assert After(h) == ["x\n"] && Before(h) == [];
    assert PatchesOf([h]) == [Patch(0, [], ["x\n"])];
    FillEmpty(["x\n"]);
    assert ApplyFile(None, NEW_FILE) == Ok(Some(["x\n"]));
    assert Join(["x\n"]) == "x\n" by {
      assert ["x\n"][1..] == [] && "x\n" + "" == "x\n";
    }
  }

  /** At an input: whatever its path holds, a diff that calls it new passes unless that is the new text itself, and
      when it is too long the check raises. The answer "already exists" is never given. */
  lemma NewFileOverExisting(policy: Policy, read: string -> Reading, again: string -> Reading)
    requires AllowsNewFile(policy)
    ensures Writable([NEW_FILE])
    ensures CheckFiles([NEW_FILE], policy, read, again).None? <==> again("f").Truncated?
    ensures Passes(CheckFiles([NEW_FILE], policy, read, again)) <==> !again("f").Truncated? && again("f") != Text("x\n")
  {
    hide CheckFiles, ApplyOne, Small, Changes;
    NewFileApplies(read);
    var files := [NEW_FILE];
    assert forall fd | fd in files :: fd == NEW_FILE;
    assert NEW_FILE in files;
    PassesExactly(files, policy, read, again);
    RewritesExactly(policy, NEW_FILE, read, again);
    NewFileChanges(again("f"));
    RaisesExactly(files, policy, read, again);
    NewFileIsHarmless(policy);
    assert AllApply(files, read) && DistinctPaths(files) && AdditiveFirst(files);
  }

  lemma NewFileChanges(now: Reading)
    ensures Changes(NEW_FILE, Some(Some("x\n")), now) <==> !now.Truncated? && now != Text("x\n")
  {}

  lemma NewFileIsHarmless(policy: Policy)
    requires GoodFile(policy, NEW_FILE)
    ensures !Dangerous(policy, [NEW_FILE])
  {}
}
