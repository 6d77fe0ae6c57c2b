/** The one canonical form of a person's name, and the schema's own description of it. */
module Identity {
  import opened Wrappers
  import opened DiffParse

  datatype IdentityError = Invisible | Empty | NotPlain

  /** What the Unicode tables decide: which characters render as nothing, and a text after compatibility
      normalisation, case folding and normalisation again. */
  datatype Tables = Tables(invisible: char -> bool, fold: string -> string) {
    /** The facts about those tables the rules lean on: printable ASCII is visible, is only lower-cased by folding,
        and folding leaves no upper-case ASCII letter behind. */
    ghost predicate Lawful() {
      && (forall c :: Plain(c) ==> !invisible(c))
      && (forall s :: AllPlain(s) ==> fold(s) == Lower(s))
      && (forall s, c :: c in fold(s) ==> !('A' <= c <= 'Z'))
    }
  }

  predicate Plain(c: char) { ' ' <= c <= '~' }

  predicate AllPlain(s: string) { forall c | c in s :: Plain(c) }

  function LowerChar(c: char): char { if 'A' <= c <= 'Z' then (c as int + 32) as char else c }

  /** The schema's `lower`: ASCII letters only. */
  function Lower(s: string): (r: string)
    ensures |r| == |s| && forall k | 0 <= k < |s| :: r[k] == LowerChar(s[k])
  {
    if s == "" then "" else [LowerChar(s[0])] + Lower(s[1..])
  }

  /** The words of a text with one space between them; `started` after a word, `gap` after spaces. */
  function Collapse(s: string, started: bool, gap: bool): string {
    if s == "" then ""
    else if IsSpace(s[0]) then Collapse(s[1..], started, true)
    else (if started && gap then " " else "") + [s[0]] + Collapse(s[1..], true, false)
  }

  function Normalize(u: Tables, raw: string): Result<string, IdentityError> {
    if exists c | c in raw :: u.invisible(c) then Err(Invisible)
    else
      var norm := Collapse(u.fold(raw), false, false);
      if norm == "" then Err(Empty)
      else if (exists c | c in norm :: u.invisible(c)) || !AllPlain(norm) then Err(NotPlain)
      else Ok(norm)
  }

  // ---- the schema's side -----------------------------------------------------------------------

  predicate DoubleSpace(s: string) { exists k :: 0 <= k < |s| - 1 && s[k] == ' ' && s[k + 1] == ' ' }

  /** The CHECK on a stored identity: not empty, lower case, trimmed, no two spaces in a row, printable, no NUL, one
      byte a character. */
  predicate StoredIdentity(s: string) {
    && s != "" && s == Lower(s)
    && s[0] != ' ' && s[|s| - 1] != ' ' && !DoubleSpace(s)
    && AllPlain(s) && '\0' !in s && (forall c | c in s :: c as int < 128)
  }

  // ---- they are the same -----------------------------------------------------------------------

  lemma {:induction false} CollapseShape(s: string, started: bool, gap: bool)
    ensures var r := Collapse(s, started, gap);
      && (r != "" ==> r[|r| - 1] != ' ' && !IsSpace(r[|r| - 1]))
      && !DoubleSpace(r)
      && (r != "" && r[0] == ' ' ==> started && (gap || IsSpace(s[0])))
      && (forall c | c in r :: c == ' ' || c in s)
  {
    if s != "" {
      if IsSpace(s[0]) {
        CollapseShape(s[1..], started, true);
      } else {
        CollapseShape(s[1..], true, false);
        var rest, c := Collapse(s[1..], true, false), s[0];
        assert !DoubleSpace([c] + rest) by { NoDoubleAhead(c, rest); }
        if started && gap { NoDoubleAhead(' ', [c] + rest); }
      }
    }
  }

  lemma NoDoubleAhead(c: char, rest: string)
    requires !DoubleSpace(rest) && !(c == ' ' && rest != "" && rest[0] == ' ')
    ensures !DoubleSpace([c] + rest)
  {
    var s := [c] + rest;
    forall k | 0 <= k < |s| - 1 ensures !(s[k] == ' ' && s[k + 1] == ' ') {
      if k > 0 { assert s[k] == rest[k - 1] && s[k + 1] == rest[k]; }
    }
  }

  lemma {:induction false} CollapseFixes(s: string, started: bool)
    requires AllPlain(s) && !DoubleSpace(s)
    requires s != "" ==> s[|s| - 1] != ' ' && (s[0] == ' ' ==> started)
    ensures Collapse(s, started, false) == s
  {
    if s != "" {
      assert s[0] in s;
      if s[0] == ' ' {
        assert s[1] in s && s[1] != ' ' && !IsSpace(s[1]);
        TailKeeps(s, 2);
        CollapseFixes(s[2..], true);
        assert s[1..][0] == s[1] && s[1..][1..] == s[2..];
        assert s == " " + [s[1]] + s[2..];
      } else {
        TailKeeps(s, 1);
        CollapseFixes(s[1..], true);
      }
    }
  }

  lemma TailKeeps(s: string, n: nat)
    requires n <= |s| && AllPlain(s) && !DoubleSpace(s)
    ensures AllPlain(s[n..]) && !DoubleSpace(s[n..])
  {
    forall k | 0 <= k < |s[n..]| - 1 ensures !(s[n..][k] == ' ' && s[n..][k + 1] == ' ') {
      assert s[n..][k] == s[n + k] && s[n..][k + 1] == s[n + k + 1];
    }
  }

  lemma StoredIsNormal(u: Tables, s: string)
    requires u.Lawful() && StoredIdentity(s)
    ensures Normalize(u, s) == Ok(s)
  {
    CollapseFixes(s, false);
  }

  lemma NormalIsStored(u: Tables, raw: string, n: string)
    requires u.Lawful() && Normalize(u, raw) == Ok(n)
    ensures StoredIdentity(n)
  {
    CollapseShape(u.fold(raw), false, false);
    forall k | 0 <= k < |n| ensures LowerChar(n[k]) == n[k] { assert n[k] in n; }
    assert Lower(n) == n;
    forall c | c in n ensures Plain(c) {}
  }

  /** What `Normalize` returns satisfies the schema's CHECK and is its own normal form. */
  lemma NormalizeIsIdempotent(u: Tables, raw: string, n: string)
    requires u.Lawful() && Normalize(u, raw) == Ok(n)
    ensures StoredIdentity(n) && Normalize(u, n) == Ok(n)
  {
    NormalIsStored(u, raw, n);
    StoredIsNormal(u, n);
  }

  /** The CHECK admits exactly the normal forms. */
  lemma CheckIsNormalForm(u: Tables, s: string)
    requires u.Lawful()
    ensures StoredIdentity(s) <==> Normalize(u, s) == Ok(s)
  {
    if StoredIdentity(s) { StoredIsNormal(u, s); }
    if Normalize(u, s) == Ok(s) { NormalIsStored(u, s, s); }
  }

  /** Tables with those facts exist, so nothing above is vacuous. */
  lemma LawfulTables() returns (u: Tables)
    ensures u.Lawful()
  {
    u := Tables(c => !Plain(c), s => Lower(s));
    forall s: string, c | c in u.fold(s) ensures !('A' <= c <= 'Z') {
      var k :| 0 <= k < |Lower(s)| && Lower(s)[k] == c;
    }
  }
}
