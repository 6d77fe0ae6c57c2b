/** The deterministic check of a proposed diff: every rule reports, and only a diff without a report is committed. */
module Tier3Check {
  import opened Wrappers
  import opened Diffs
  import opened DiffParse
  import opened DiffPrint
  import opened DiffText

  datatype Code =
    | NoDiff | ParseFailed | Renames | DeletesFile | UnsafePath | ProtectedPath | UndeclaredPath | UnrelatedPath
    | TooManyFiles | TooManyLines | SecretLiteral | SubtractiveBeforeAdditive | DoesNotApply | NoOp

  datatype Violation = Violation(code: Code, path: string)

  /** The rules about paths and secrets, whatever they are, and what the proposal declared. */
  datatype Policy = Policy(
    isUnsafe: string -> bool, isProtected: string -> bool, isAllowed: string -> bool,
    secrets: seq<string> -> nat, declared: set<string>, maxFiles: nat, maxChanged: nat)

  /** Reading one file at the failing commit: missing, its text, or cut off at the size limit. */
  datatype Reading = Missing | Text(text: string) | Truncated

  type Contents = seq<(string, Option<string>)>

  datatype Check = Check(violations: seq<Violation>, files: Option<seq<FileDiff>>, contents: Contents)

  // ---- the rules -------------------------------------------------------------------------------

  /** The reports of one rule over a list, in order. */
  function Reports<T>(items: seq<T>, rule: T -> seq<Violation>): seq<Violation> {
    if items == [] then [] else Reports(items[..|items| - 1], rule) + rule(items[|items| - 1])
  }

  function When(report: bool, code: Code, path: string): seq<Violation> {
    if report then [Violation(code, path)] else []
  }

  function NamedPaths(fd: FileDiff): seq<string> {
    (if fd.oldPath.Some? then [fd.oldPath.value] else [])
    + (if fd.newPath.Some? && fd.newPath != fd.oldPath then [fd.newPath.value] else [])
  }

  function PathRule(policy: Policy, p: string): seq<Violation> {
    if policy.isUnsafe(p) then [Violation(UnsafePath, p)] else When(policy.isProtected(p), ProtectedPath, p)
  }

  function PathRuleOf(policy: Policy): string -> seq<Violation> { p => PathRule(policy, p) }

  function FileRule(policy: Policy, fd: FileDiff): seq<Violation> {
    When(fd.IsRename(), Renames, fd.Path()) + When(fd.IsDeleted(), DeletesFile, fd.Path())
    + Reports(NamedPaths(fd), PathRuleOf(policy))
  }

  function FileRuleOf(policy: Policy): FileDiff -> seq<Violation> { fd => FileRule(policy, fd) }

  function ScopeRule(policy: Policy, p: string): seq<Violation> {
    When(!(p in policy.declared || policy.isUnsafe(p)), UndeclaredPath, p)
    + When(!policy.isUnsafe(p) && !policy.isProtected(p) && !policy.isAllowed(p), UnrelatedPath, p)
  }

  function ScopeRuleOf(policy: Policy): FileDiff -> seq<Violation> { (fd: FileDiff) => ScopeRule(policy, fd.Path()) }

  function TotalChanged(files: seq<FileDiff>): nat {
    if files == [] then 0 else TotalChanged(files[..|files| - 1]) + Changed(files[|files| - 1].hunks)
  }

  function PlusLines(lines: seq<string>): seq<string> {
    if lines == [] then []
    else PlusLines(lines[..|lines| - 1])
         + (if StartsWith(lines[|lines| - 1], "+") then [lines[|lines| - 1][1..]] else [])
  }

  function AddedInHunks(hunks: seq<Hunk>): seq<string> {
    if hunks == [] then [] else AddedInHunks(hunks[..|hunks| - 1]) + PlusLines(hunks[|hunks| - 1].lines)
  }

  /** Every added line of the diff, without its prefix. */
  function AddedLines(files: seq<FileDiff>): seq<string> {
    if files == [] then [] else AddedLines(files[..|files| - 1]) + AddedInHunks(files[|files| - 1].hunks)
  }

  function SizeRule(policy: Policy, files: seq<FileDiff>): seq<Violation> {
    When(|files| > policy.maxFiles, TooManyFiles, "") + When(TotalChanged(files) > policy.maxChanged, TooManyLines, "")
    + seq(policy.secrets(AddedLines(files)), _ => Violation(SecretLiteral, ""))
  }

  /** The first file that does not shrink after one that does. */
  function OrderRule(files: seq<FileDiff>, shrinking: bool): seq<Violation> {
    if files == [] then []
    else if Net(files[0].hunks) < 0 then OrderRule(files[1..], true)
    else if shrinking && !files[0].IsDeleted() then [Violation(SubtractiveBeforeAdditive, files[0].Path())]
    else OrderRule(files[1..], shrinking)
  }

  function BeforeReading(policy: Policy, files: seq<FileDiff>): seq<Violation> {
    Reports(files, FileRuleOf(policy)) + Reports(files, ScopeRuleOf(policy)) + SizeRule(policy, files) + OrderRule(files, false)
  }

  /** Reports after which no file is read. */
  predicate OffLimits(violations: seq<Violation>) {
    exists v :: v in violations && (v.code == UnsafePath || v.code == ProtectedPath || v.code == Renames)
  }

  // ---- applying every file ---------------------------------------------------------------------

  predicate Writable(files: seq<FileDiff>) { forall fd | fd in files :: AllWellformed(fd.hunks) }

  predicate Written(contents: Contents, path: string) { exists k :: 0 <= k < |contents| && contents[k].0 == path }

  /** The content one file diff is applied to; `None` when it cannot be read whole. A new file is never looked up. */
  function Base(fd: FileDiff, read: string -> Reading): Option<Option<string>> {
    if fd.IsNew() then Some(None)
    else
      match read(fd.oldPath.value)
      case Missing => Some(None)
      case Text(text) => Some(Some(text))
      case Truncated => None
  }

  function ApplyOne(fd: FileDiff, read: string -> Reading): Option<Option<string>>
    requires AllWellformed(fd.hunks)
  {
    if Base(fd, read).None? then None
    else
      match ApplyText(Base(fd, read).value, fd)
      case Err(_) => None
      case Ok(content) => Some(content)
  }

  /** `None` when some file does not apply or is named twice. */
  function ApplyFrom(files: seq<FileDiff>, read: string -> Reading, done: Contents): Option<Contents>
    requires Writable(files)
  {
    if files == [] then Some(done)
    else
      var fd := files[0];
      assert AllWellformed(fd.hunks);
      if Written(done, fd.Path()) || ApplyOne(fd, read).None? then None
      else ApplyFrom(files[1..], read, done + [(fd.Path(), ApplyOne(fd, read).value)])
  }

  method ApplyDiff(files: seq<FileDiff>, read: string -> Reading) returns (r: Option<Contents>)
    requires Writable(files)
    ensures r == ApplyFrom(files, read, [])
  {
    var done: Contents := [];
    assert files[0..] == files;
    for i := 0 to |files|
      invariant ApplyFrom(files, read, []) == ApplyFrom(files[i..], read, done)
    {
      var fd := files[i];
      assert files[i..][0] == fd && files[i..][1..] == files[i + 1..];
      if Written(done, fd.Path()) { return None; }
      var content := ApplyOne(fd, read);
      if content.None? { return None; }
      done := done + [(fd.Path(), content.value)];
    }
    return Some(done);
  }

  /** Files the diff leaves as they are; `None` when the comparison itself meets a file too large to read, which the
      check does not catch. */
  function NoOps(contents: Contents, read: string -> Reading): Option<seq<Violation>> {
    if contents == [] then Some([])
    else
      var (p, content), found := contents[|contents| - 1], NoOps(contents[..|contents| - 1], read);
      if found.None? || read(p).Truncated? then None
      else Some(found.value + When(content.Some? && read(p) == Text(content.value), NoOp, p))
  }

  // ---- the check -------------------------------------------------------------------------------

  lemma ParsedIsWritable(text: string)
    ensures Parse(text).Ok? ==> Writable(Parse(text).value)
  {
    if Parse(text).Ok? {
      ParsedIsPrintable(text, Parse(text).value);
      forall fd, h, raw | fd in Parse(text).value && h in fd.hunks && raw in h.lines ensures HunkLine(raw) {
        assert PrintableFile(fd) && PrintableHunk(h);
      }
    }
  }

  /** Applying and comparing, after what was found without reading. */
  function CheckContents(files: seq<FileDiff>, found: seq<Violation>, read: string -> Reading, again: string -> Reading): Option<Check>
    requires Writable(files)
  {
    if OffLimits(found) then Some(Check(found, Some(files), []))
    else
      match ApplyFrom(files, read, [])
      case None => Some(Check(found + [Violation(DoesNotApply, "")], Some(files), []))
      case Some(contents) =>
        match NoOps(contents, again)
        case None => None
        case Some(same) => Some(Check(found + same, Some(files), contents))
  }

  function CheckFiles(files: seq<FileDiff>, policy: Policy, read: string -> Reading, again: string -> Reading): Option<Check>
    requires Writable(files)
  {
    CheckContents(files, BeforeReading(policy, files), read, again)
  }

  /** The whole check. `read` answers while applying and `again` while comparing; a file is read at most once each
      time. `None` is an error the check lets through: only what the parser and the applier say about the diff is
      reported. */
  function CheckOf(text: string, policy: Policy, read: string -> Reading, again: string -> Reading): Option<Check> {
    if IsBlank(text) then Some(Check([Violation(NoDiff, "")], None, []))
    else
      match Parse(text)
      case Err(e) => if e == NumberTooLong then None else Some(Check([Violation(ParseFailed, "")], None, []))
      case Ok(files) =>
        ParsedIsWritable(text);
        CheckFiles(files, policy, read, again)
  }

  lemma ReportsNext<T>(items: seq<T>, i: nat, rule: T -> seq<Violation>)
    requires i < |items|
    ensures Reports(items[..i + 1], rule) == Reports(items[..i], rule) + rule(items[i])
  {
    assert items[..i + 1][..i] == items[..i];
  }

  method CheckPaths(fd: FileDiff, policy: Policy) returns (found: seq<Violation>)
    ensures found == Reports(NamedPaths(fd), PathRuleOf(policy))
  {
    var named := NamedPaths(fd);
    found := [];
    for i := 0 to |named|
      invariant found == Reports(named[..i], PathRuleOf(policy))
    {
      ReportsNext(named, i, PathRuleOf(policy));
      if policy.isUnsafe(named[i]) {
        found := found + [Violation(UnsafePath, named[i])];
      } else if policy.isProtected(named[i]) {
        found := found + [Violation(ProtectedPath, named[i])];
      }
    }
    assert named[..|named|] == named;
  }

  method CheckFile(fd: FileDiff, policy: Policy) returns (found: seq<Violation>)
    ensures found == FileRule(policy, fd)
  {
    var renames, deletes: seq<Violation> := [], [];
    if fd.IsRename() { renames := [Violation(Renames, fd.Path())]; }
    if fd.IsDeleted() { deletes := [Violation(DeletesFile, fd.Path())]; }
    var paths := CheckPaths(fd, policy);
    return renames + deletes + paths;
  }

  method CheckEachFile(files: seq<FileDiff>, policy: Policy) returns (found: seq<Violation>)
    ensures found == Reports(files, FileRuleOf(policy))
  {
    found := [];
    for i := 0 to |files|
      invariant found == Reports(files[..i], FileRuleOf(policy))
    {
      ReportsNext(files, i, FileRuleOf(policy));
      var more := CheckFile(files[i], policy);
      found := found + more;
    }
    assert files[..|files|] == files;
  }

  method CheckScope(files: seq<FileDiff>, policy: Policy) returns (found: seq<Violation>)
    ensures found == Reports(files, ScopeRuleOf(policy))
  {
    found := [];
    for i := 0 to |files|
      invariant found == Reports(files[..i], ScopeRuleOf(policy))
    {
      ReportsNext(files, i, ScopeRuleOf(policy));
      var p := files[i].Path();
      if !(p in policy.declared || policy.isUnsafe(p)) { found := found + [Violation(UndeclaredPath, p)]; }
      if !policy.isUnsafe(p) && !policy.isProtected(p) && !policy.isAllowed(p) {
        found := found + [Violation(UnrelatedPath, p)];
      }
    }
    assert files[..|files|] == files;
  }

  method CheckOrder(files: seq<FileDiff>) returns (found: seq<Violation>)
    ensures found == OrderRule(files, false)
  {
    var shrinking := false;
    assert files[0..] == files;
    for i := 0 to |files|
      invariant OrderRule(files, false) == OrderRule(files[i..], shrinking)
    {
      assert files[i..][0] == files[i] && files[i..][1..] == files[i + 1..];
      if Net(files[i].hunks) < 0 {
        shrinking := true;
      } else if shrinking && !files[i].IsDeleted() {
        return [Violation(SubtractiveBeforeAdditive, files[i].Path())];
      }
    }
    return [];
  }

  method CheckNoOps(contents: Contents, read: string -> Reading) returns (r: Option<seq<Violation>>)
    ensures r == NoOps(contents, read)
  {
    var found: seq<Violation> := [];
    for i := 0 to |contents|
      invariant NoOps(contents[..i], read) == Some(found)
    {
      assert contents[..i + 1][..i] == contents[..i] && contents[..i + 1][i] == contents[i];
      var (p, content) := contents[i];
      var now := read(p);
      if now.Truncated? {
        NoOpsStops(contents, i + 1, read);
        return None;
      }
      found := found + When(content.Some? && now == Text(content.value), NoOp, p);
    }
    assert contents[..|contents|] == contents;
    return Some(found);
  }

  method CheckDiff(text: string, policy: Policy, read: string -> Reading, again: string -> Reading)
    returns (r: Option<Check>)
    ensures r == CheckOf(text, policy, read, again)
  {
    if IsBlank(text) { return Some(Check([Violation(NoDiff, "")], None, [])); }
    var parsed := ParseDiff(text);
    if parsed == Err(NumberTooLong) { return None; }
    if parsed.Err? { return Some(Check([Violation(ParseFailed, "")], None, [])); }
    var files := parsed.value;
    ParsedIsWritable(text);
    var found := CheckEachFile(files, policy);
    var scope := CheckScope(files, policy);
    var order := CheckOrder(files);
    found := found + scope + SizeRule(policy, files) + order;
    if OffLimits(found) { return Some(Check(found, Some(files), [])); }
    var contents := ApplyDiff(files, read);
    if contents.None? { return Some(Check(found + [Violation(DoesNotApply, "")], Some(files), [])); }
    var same := CheckNoOps(contents.value, again);
    if same.None? { return None; }
    return Some(Check(found + same.value, Some(files), contents.value));
  }

  lemma {:induction false} NoOpsStops(contents: Contents, i: nat, read: string -> Reading)
    requires i <= |contents| && NoOps(contents[..i], read).None?
    ensures NoOps(contents, read).None?
    decreases |contents|
  {
    if i == |contents| {
      assert contents[..i] == contents;
    } else {
      assert contents[..|contents| - 1][..i] == contents[..i];
      NoOpsStops(contents[..|contents| - 1], i, read);
    }
  }
}
