/** What each report of the check says about the diff. */
module Tier3Reports {
  import opened Wrappers
  import opened Diffs
  import opened Tier3Check
  import opened Tier3Lines

  predicate Names(fd: FileDiff, p: string) { fd.oldPath == Some(p) || fd.newPath == Some(p) }

  predicate Moves(fd: FileDiff) { fd.oldPath.Some? && fd.newPath.Some? && fd.oldPath.value != fd.newPath.value }

  /** This file does not shrink, although one before it does. */
  predicate Late(files: seq<FileDiff>, j: nat) {
    j < |files| && Net(files[j].hunks) >= 0 && files[j].newPath.Some? && exists i :: 0 <= i < j && Net(files[i].hunks) < 0
  }

  predicate FirstLate(files: seq<FileDiff>, j: nat) { Late(files, j) && forall i | 0 <= i < j :: !Late(files, i) }

  /** When there is such a report before any file is read. */
  ghost predicate Reported(policy: Policy, files: seq<FileDiff>, v: Violation) {
    match v.code
    case Renames => exists fd :: fd in files && Moves(fd) && v.path == fd.Path()
    case DeletesFile => exists fd :: fd in files && fd.newPath.None? && v.path == fd.Path()
    case UnsafePath => policy.isUnsafe(v.path) && exists fd :: fd in files && Names(fd, v.path)
    case ProtectedPath => !policy.isUnsafe(v.path) && policy.isProtected(v.path) && exists fd :: fd in files && Names(fd, v.path)
    case UndeclaredPath =>
      v.path !in policy.declared && !policy.isUnsafe(v.path) && exists fd :: fd in files && v.path == fd.Path()
    case UnrelatedPath =>
      !policy.isUnsafe(v.path) && !policy.isProtected(v.path) && !policy.isAllowed(v.path) && exists fd :: fd in files && v.path == fd.Path()
    case TooManyFiles => v.path == "" && |files| > policy.maxFiles
    case TooManyLines => v.path == "" && exists n: nat :: ChangesLines(files, n) && n > policy.maxChanged
    case SecretLiteral => v.path == "" && exists texts :: Adds(files, texts) && policy.secrets(texts) > 0
    case SubtractiveBeforeAdditive => exists j: nat :: FirstLate(files, j) && v.path == files[j].Path()
    case _ => false
  }

  lemma {:induction false} InReports<T>(items: seq<T>, rule: T -> seq<Violation>, v: Violation)
    ensures v in Reports(items, rule) <==> exists x :: x in items && v in rule(x)
  {
    if items != [] {
      InReports(items[..|items| - 1], rule, v);
      assert items == items[..|items| - 1] + [items[|items| - 1]];
    }
  }

  lemma InFileRule(policy: Policy, fd: FileDiff, v: Violation)
    ensures v in FileRule(policy, fd) <==>
      || (v == Violation(Renames, fd.Path()) && Moves(fd)) || (v == Violation(DeletesFile, fd.Path()) && fd.newPath.None?)
      || (Names(fd, v.path) && v.code == UnsafePath && policy.isUnsafe(v.path))
      || (Names(fd, v.path) && v.code == ProtectedPath && !policy.isUnsafe(v.path) && policy.isProtected(v.path))
  {
    InReports(NamedPaths(fd), PathRuleOf(policy), v);
    forall p: string ensures p in NamedPaths(fd) <==> Names(fd, p) {}
    forall p: string
      ensures v in PathRuleOf(policy)(p) <==>
        v.path == p && ((v.code == UnsafePath && policy.isUnsafe(p)) || (v.code == ProtectedPath && !policy.isUnsafe(p) && policy.isProtected(p)))
    {}
  }

  lemma InSizeRule(policy: Policy, files: seq<FileDiff>, v: Violation)
    ensures v in SizeRule(policy, files) <==>
      || (v == Violation(TooManyFiles, "") && |files| > policy.maxFiles)
      || (v == Violation(TooManyLines, "") && TotalChanged(files) > policy.maxChanged)
      || (v == Violation(SecretLiteral, "") && policy.secrets(AddedLines(files)) > 0)
  {
    hide TotalChanged, AddedLines;
    var secrets := seq(policy.secrets(AddedLines(files)), _ => Violation(SecretLiteral, ""));
    if |secrets| > 0 { assert secrets[0] in secrets; }
  }

  lemma LateBehind(files: seq<FileDiff>, shrinking: bool, j: nat)
    requires files != [] && 0 < j < |files|
    ensures LateAfter(files, shrinking, j) <==> LateAfter(files[1..], shrinking || Net(files[0].hunks) < 0, j - 1)
  {
    var rest := files[1..];
    assert forall k | 0 < k < |files| :: files[k] == rest[k - 1];
    if i :| 0 <= i < j && Net(files[i].hunks) < 0 { if i > 0 { assert Net(rest[i - 1].hunks) < 0; } }
    if i :| 0 <= i < j - 1 && Net(rest[i].hunks) < 0 { assert Net(files[i + 1].hunks) < 0; }
  }

  /** `Late`, when something before the files shrank already. */
  predicate LateAfter(files: seq<FileDiff>, shrinking: bool, j: nat) {
    j < |files| && Net(files[j].hunks) >= 0 && files[j].newPath.Some? && (shrinking || exists i :: 0 <= i < j && Net(files[i].hunks) < 0)
  }

  ghost predicate FirstLateAfter(files: seq<FileDiff>, shrinking: bool, j: nat) {
    LateAfter(files, shrinking, j) && forall i | 0 <= i < j :: !LateAfter(files, shrinking, i)
  }

  lemma {:induction false} InOrderRule(files: seq<FileDiff>, shrinking: bool, v: Violation)
    ensures v in OrderRule(files, shrinking) <==>
      v.code == SubtractiveBeforeAdditive && exists j: nat :: FirstLateAfter(files, shrinking, j) && v.path == files[j].Path()
  {
    if files != [] {
      var now := shrinking || Net(files[0].hunks) < 0;
      if LateAfter(files, shrinking, 0) {
        assert FirstLateAfter(files, shrinking, 0);
        forall j: nat | FirstLateAfter(files, shrinking, j) ensures j == 0 {}
      } else {
        InOrderRule(files[1..], now, v);
        forall j: nat | 0 < j < |files| ensures FirstLateAfter(files, shrinking, j) <==> FirstLateAfter(files[1..], now, j - 1) {
          FirstLateBehind(files, shrinking, j);
        }
        if j: nat :| FirstLateAfter(files[1..], now, j) && v.path == files[1..][j].Path() { assert FirstLateAfter(files, shrinking, j + 1); }
      }
    }
  }

  lemma FirstLateBehind(files: seq<FileDiff>, shrinking: bool, j: nat)
    requires files != [] && 0 < j < |files| && !LateAfter(files, shrinking, 0)
    ensures FirstLateAfter(files, shrinking, j) <==> FirstLateAfter(files[1..], shrinking || Net(files[0].hunks) < 0, j - 1)
  {
    hide LateAfter;
    var rest, now := files[1..], shrinking || Net(files[0].hunks) < 0;
    forall i | 0 < i <= j ensures LateAfter(files, shrinking, i) <==> LateAfter(rest, now, i - 1) { LateBehind(files, shrinking, i); }
    if FirstLateAfter(files, shrinking, j) {
      forall i | 0 <= i < j - 1 ensures !LateAfter(rest, now, i) { assert !LateAfter(files, shrinking, i + 1); }
    }
  }

  lemma InScopeRule(policy: Policy, fd: FileDiff, v: Violation)
    ensures v in ScopeRuleOf(policy)(fd) <==>
      v.path == fd.Path() && !policy.isUnsafe(v.path)
      && ((v.code == UndeclaredPath && v.path !in policy.declared)
          || (v.code == UnrelatedPath && !policy.isProtected(v.path) && !policy.isAllowed(v.path)))
  {}

  lemma SizesExactly(policy: Policy, files: seq<FileDiff>)
    ensures TotalChanged(files) > policy.maxChanged <==> exists n: nat :: ChangesLines(files, n) && n > policy.maxChanged
    ensures policy.secrets(AddedLines(files)) > 0 <==> exists texts :: Adds(files, texts) && policy.secrets(texts) > 0
  {
    hide Adds, ChangesLines, TotalChanged, AddedLines;
    ChangedLinesExactly(files, TotalChanged(files));
    AddedLinesExactly(files, AddedLines(files));
    if n: nat :| ChangesLines(files, n) && n > policy.maxChanged { ChangedLinesExactly(files, n); }
    if texts :| Adds(files, texts) && policy.secrets(texts) > 0 { AddedLinesExactly(files, texts); }
  }

  ghost predicate FromFiles(policy: Policy, files: seq<FileDiff>, v: Violation) {
    || (v.code == Renames && exists fd :: fd in files && Moves(fd) && v.path == fd.Path())
    || (v.code == DeletesFile && exists fd :: fd in files && fd.newPath.None? && v.path == fd.Path())
    || (v.code == UnsafePath && policy.isUnsafe(v.path) && exists fd :: fd in files && Names(fd, v.path))
    || (v.code == ProtectedPath && !policy.isUnsafe(v.path) && policy.isProtected(v.path) && exists fd :: fd in files && Names(fd, v.path))
  }

  lemma InFileReports(policy: Policy, files: seq<FileDiff>, v: Violation)
    ensures v in Reports(files, FileRuleOf(policy)) <==> FromFiles(policy, files, v)
  {
    hide FileRule, Reports, Names, Moves;
    InReports(files, FileRuleOf(policy), v);
    forall fd: FileDiff
      ensures v in FileRuleOf(policy)(fd) <==>
        || (v == Violation(Renames, fd.Path()) && Moves(fd)) || (v == Violation(DeletesFile, fd.Path()) && fd.newPath.None?)
        || (Names(fd, v.path) && v.code == UnsafePath && policy.isUnsafe(v.path))
        || (Names(fd, v.path) && v.code == ProtectedPath && !policy.isUnsafe(v.path) && policy.isProtected(v.path))
    {
      InFileRule(policy, fd, v);
    }
  }

  ghost predicate FromScope(policy: Policy, files: seq<FileDiff>, v: Violation) {
    && (exists fd :: fd in files && v.path == fd.Path()) && !policy.isUnsafe(v.path)
    && ((v.code == UndeclaredPath && v.path !in policy.declared)
        || (v.code == UnrelatedPath && !policy.isProtected(v.path) && !policy.isAllowed(v.path)))
  }

  lemma InScopeReports(policy: Policy, files: seq<FileDiff>, v: Violation)
    ensures v in Reports(files, ScopeRuleOf(policy)) <==> FromScope(policy, files, v)
  {
    hide ScopeRule, Reports;
    InReports(files, ScopeRuleOf(policy), v);
    forall fd: FileDiff
      ensures v in ScopeRuleOf(policy)(fd) <==>
        v.path == fd.Path() && !policy.isUnsafe(v.path)
        && ((v.code == UndeclaredPath && v.path !in policy.declared)
            || (v.code == UnrelatedPath && !policy.isProtected(v.path) && !policy.isAllowed(v.path)))
    {
      InScopeRule(policy, fd, v);
    }
  }

  lemma InFour(a: seq<Violation>, b: seq<Violation>, c: seq<Violation>, d: seq<Violation>, v: Violation)
    ensures v in a + b + c + d <==> v in a || v in b || v in c || v in d
  {}

  /** Every report made before a file is read says something true of the diff, and everything it could say is said. */
  lemma ReportedExactly(policy: Policy, files: seq<FileDiff>, v: Violation)
    ensures v in BeforeReading(policy, files) <==> Reported(policy, files, v)
  {
    hide Adds, ChangesLines, TotalChanged, AddedLines, OrderRule, FileRule, ScopeRule, SizeRule, Reports, Names, Moves, FirstLate, FirstLateAfter;
    InFour(Reports(files, FileRuleOf(policy)), Reports(files, ScopeRuleOf(policy)), SizeRule(policy, files), OrderRule(files, false), v);
    InFileReports(policy, files, v);
    InScopeReports(policy, files, v);
    InSizeRule(policy, files, v);
    SizesExactly(policy, files);
    InOrderRule(files, false, v);
    forall j: nat ensures FirstLateAfter(files, false, j) <==> FirstLate(files, j) { FirstLateIs(files, j); }
  }

  ghost predicate Dangerous(policy: Policy, files: seq<FileDiff>) {
    exists fd :: fd in files && (Moves(fd) || exists p :: Names(fd, p) && (policy.isUnsafe(p) || policy.isProtected(p)))
  }

  /** Reading is refused exactly to a diff that moves a file or names a path that is unsafe or protected. */
  lemma OffLimitsExactly(policy: Policy, files: seq<FileDiff>)
    ensures OffLimits(BeforeReading(policy, files)) <==> Dangerous(policy, files)
  {
    hide BeforeReading, Reported, Moves, Names;
    forall v: Violation ensures v in BeforeReading(policy, files) <==> Reported(policy, files, v) { ReportedExactly(policy, files, v); }
    if fd :| fd in files && (Moves(fd) || exists p :: Names(fd, p) && (policy.isUnsafe(p) || policy.isProtected(p))) {
      if Moves(fd) {
        MovesIsReported(policy, files, fd);
      } else {
        var p :| Names(fd, p) && (policy.isUnsafe(p) || policy.isProtected(p));
        NamedIsReported(policy, files, fd, p);
      }
    }
    if v :| v in BeforeReading(policy, files) && (v.code == UnsafePath || v.code == ProtectedPath || v.code == Renames) {
      ReportIsDanger(policy, files, v);
    }
  }

  lemma MovesIsReported(policy: Policy, files: seq<FileDiff>, fd: FileDiff)
    requires fd in files && Moves(fd)
    ensures Reported(policy, files, Violation(Renames, fd.Path()))
  {
    hide Moves;
  }

  lemma NamedIsReported(policy: Policy, files: seq<FileDiff>, fd: FileDiff, p: string)
    requires fd in files && Names(fd, p) && (policy.isUnsafe(p) || policy.isProtected(p))
    ensures Reported(policy, files, Violation(if policy.isUnsafe(p) then UnsafePath else ProtectedPath, p))
  {
    hide Names;
  }

  lemma ReportIsDanger(policy: Policy, files: seq<FileDiff>, v: Violation)
    requires Reported(policy, files, v) && (v.code == UnsafePath || v.code == ProtectedPath || v.code == Renames)
    ensures Dangerous(policy, files)
  {
    hide Names, Moves;
  }

  lemma FirstLateIs(files: seq<FileDiff>, j: nat)
    ensures FirstLateAfter(files, false, j) <==> FirstLate(files, j)
  {
    forall i: nat ensures LateAfter(files, false, i) <==> Late(files, i) {}
  }
}
