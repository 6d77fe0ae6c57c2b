/** The lenient parser of unified diffs, as a loop over lines, and the function it computes. */
module DiffParse {
  import opened Wrappers
  import opened Diffs

  /** `NumberTooLong` is no complaint about the diff but the interpreter's own error about a number it will not read. */
  datatype ParseError =
    | EmptyDiff | NoPlusHeader | BothSidesNull | MalformedHunkHeader | NotADiffLine | NoHunk | NotAUnifiedDiff | NoFiles
    | NumberTooLong

  // ---- text to lines ---------------------------------------------------------------------------

  /** The characters `strip` removes. */
  predicate IsSpace(c: char) {
    || '\t' <= c <= '\r' || '\U{001C}' <= c <= ' ' || c == '\U{0085}' || c == '\U{00A0}' || c == '\U{1680}'
    || '\U{2000}' <= c <= '\U{200A}' || c == '\U{2028}' || c == '\U{2029}' || c == '\U{202F}' || c == '\U{205F}' || c == '\U{3000}'
  }

  predicate IsBlank(s: string) { forall k | 0 <= k < |s| :: IsSpace(s[k]) }

  function StripLeft(s: string): string {
    if s != "" && IsSpace(s[0]) then StripLeft(s[1..]) else s
  }

  function StripRight(s: string): string {
    if s != "" && IsSpace(s[|s| - 1]) then StripRight(s[..|s| - 1]) else s
  }

  function Strip(s: string): string { StripRight(StripLeft(s)) }

  function ReplaceCrLf(s: string): string {
    if s == "" then ""
    else if |s| > 1 && s[0] == '\r' && s[1] == '\n' then "\n" + ReplaceCrLf(s[2..])
    else [s[0]] + ReplaceCrLf(s[1..])
  }

  /** `split`: one piece more than there are separators. */
  function Split(s: string, sep: char): (r: seq<string>)
    ensures r != []
  {
    if s == "" then [""]
    else
      var rest := Split(s[1..], sep);
      if s[0] == sep then [""] + rest else [[s[0]] + rest[0]] + rest[1..]
  }

  function TextLines(text: string): seq<string> {
    var lines := Split(ReplaceCrLf(text), '\n');
    if lines[|lines| - 1] == "" then lines[..|lines| - 1] else lines
  }

  predicate StartsWith(s: string, prefix: string) { prefix <= s }

  // ---- one line --------------------------------------------------------------------------------

  const DEV_NULL := "/dev/null"

  /** The path of a file header, without timestamp and `a/` or `b/`; `None` for /dev/null. */
  function HeaderPath(raw: string): Option<string> {
    var name := Strip(Split(raw, '\t')[0]);
    if name == DEV_NULL then None
    else if StartsWith(name, "a/") || StartsWith(name, "b/") then Some(name[2..])
    else Some(name)
  }

  predicate IsDigit(c: char) { '0' <= c <= '9' }

  predicate AllDigits(s: string) { forall k | 0 <= k < |s| :: IsDigit(s[k]) }

  function DigitCount(s: string): (n: nat)
    ensures n <= |s| && AllDigits(s[..n])
    ensures n < |s| ==> !IsDigit(s[n])
  {
    if s != "" && IsDigit(s[0]) then
      var n := DigitCount(s[1..]);
      assert s[..n + 1] == [s[0]] + s[1..][..n];
      1 + n
    else 0
  }

  function Value(digits: string): nat
    requires AllDigits(digits)
  {
    if digits == "" then 0
    else
      var last := digits[|digits| - 1];
      assert IsDigit(last);
      10 * Value(digits[..|digits| - 1]) + (last as int - '0' as int)
  }

  /** The digits at the front of the text, and what follows them. */
  function Digits(s: string): (r: Option<(string, string)>)
    ensures r.Some? ==> AllDigits(r.value.0)
  {
    var n := DigitCount(s);
    if n == 0 then None else Some((s[..n], s[n..]))
  }

  function SkipCount(s: string): string {
    if s != "" && s[0] == ',' && Digits(s[1..]).Some? then Digits(s[1..]).value.1 else s
  }

  function Skip(s: string, prefix: string): Option<string> {
    if StartsWith(s, prefix) then Some(s[|prefix|..]) else None
  }

  /** One range: its start, whatever count follows, and the rest. */
  function Range(s: string): (r: Option<(string, string)>)
    ensures r.Some? ==> AllDigits(r.value.0)
  {
    match Digits(s)
    case None => None
    case Some((start, rest)) => Some((start, SkipCount(rest)))
  }

  /** `@@ -s,c +s,c @@`, counts optional and ignored, anything after: the digits of the two starts. */
  function HunkHeader(line: string): (r: Option<(string, string)>)
    ensures r.Some? ==> AllDigits(r.value.0) && AllDigits(r.value.1)
  {
    match Skip(line, "@@ -")
    case None => None
    case Some(s) =>
      match Range(s)
      case None => None
      case Some((from, s)) =>
        match Skip(s, " +")
        case None => None
        case Some(s) =>
          match Range(s)
          case None => None
          case Some((to, s)) => if StartsWith(s, " @@") then Some((from, to)) else None
  }

  /** The most digits the interpreter turns into a number, leading zeros included. */
  const MAX_DIGITS := 4300

  predicate Short(starts: (string, string)) { |starts.0| <= MAX_DIGITS && |starts.1| <= MAX_DIGITS }

  predicate Ignored(line: string) {
    || StartsWith(line, "diff ") || StartsWith(line, "index ") || StartsWith(line, "old mode")
    || StartsWith(line, "new mode") || StartsWith(line, "similarity ") || StartsWith(line, "rename ")
    || StartsWith(line, "new file mode") || StartsWith(line, "deleted file")
  }

  /** The lines that end a hunk's body. */
  predicate EndsBody(line: string) { StartsWith(line, "@@") || StartsWith(line, "--- ") || StartsWith(line, "diff ") }

  // ---- lines to files --------------------------------------------------------------------------

  /** A hunk's body and the lines after it. */
  function ParseBody(lines: seq<string>): Result<(seq<string>, seq<string>), ParseError> {
    if lines == [] || EndsBody(lines[0]) then Ok(([], lines))
    else if lines[0] == "" || HunkLine(lines[0]) then
      match ParseBody(lines[1..])
      case Err(e) => Err(e)
      case Ok((body, rest)) => Ok(([if lines[0] == "" then " " else lines[0]] + body, rest))
    else Err(NotADiffLine)
  }

  lemma BodyShrinks(lines: seq<string>)
    ensures ParseBody(lines).Ok? ==> |ParseBody(lines).value.1| <= |lines|
  {}

  /** The hunks at the front, and the lines after them. */
  function ParseHunks(lines: seq<string>): Result<(seq<Hunk>, seq<string>), ParseError>
    decreases |lines|
  {
    if lines == [] || !StartsWith(lines[0], "@@") then Ok(([], lines))
    else
      match HunkHeader(lines[0])
      case None => Err(MalformedHunkHeader)
      case Some((from, to)) =>
        BodyShrinks(lines[1..]);
        match ParseBody(lines[1..])
        case Err(e) => Err(e)
        case Ok((body, rest)) =>
          if !Short((from, to)) then Err(NumberTooLong)
          else
            match ParseHunks(rest)
            case Err(e) => Err(e)
            case Ok((hunks, rest)) => Ok(([Hunk(Value(from), Value(to), body)] + hunks, rest))
  }

  lemma HunksShrink(lines: seq<string>)
    ensures ParseHunks(lines).Ok? ==> |ParseHunks(lines).value.1| <= |lines|
    decreases |lines|
  {
    if lines != [] && StartsWith(lines[0], "@@") && HunkHeader(lines[0]).Some? {
      BodyShrinks(lines[1..]);
      if ParseBody(lines[1..]).Ok? { HunksShrink(ParseBody(lines[1..]).value.1); }
    }
  }

  function ParseFiles(lines: seq<string>): Result<seq<FileDiff>, ParseError>
    decreases |lines|
  {
    if lines == [] then Ok([])
    else if StartsWith(lines[0], "--- ") then
      if |lines| == 1 || !StartsWith(lines[1], "+++ ") then Err(NoPlusHeader)
      else
        var before, after := HeaderPath(lines[0][4..]), HeaderPath(lines[1][4..]);
        if before.None? && after.None? then Err(BothSidesNull)
        else
          HunksShrink(lines[2..]);
          match ParseHunks(lines[2..])
          case Err(e) => Err(e)
          case Ok((hunks, rest)) =>
            if hunks == [] then Err(NoHunk)
            else
              match ParseFiles(rest)
              case Err(e) => Err(e)
              case Ok(files) => Ok([FileDiff(before, after, hunks)] + files)
    else if Ignored(lines[0]) || IsBlank(lines[0]) then ParseFiles(lines[1..])
    else Err(NotAUnifiedDiff)
  }

  function Parse(text: string): Result<seq<FileDiff>, ParseError> {
    if IsBlank(text) then Err(EmptyDiff)
    else
      match ParseFiles(TextLines(text))
      case Err(e) => Err(e)
      case Ok(files) => if files == [] then Err(NoFiles) else Ok(files)
  }

  // ---- the loops -------------------------------------------------------------------------------

  /** What was read so far, put in front of what is still to be read. */
  function Ahead<T>(done: seq<T>, r: Result<(seq<T>, seq<string>), ParseError>): Result<(seq<T>, seq<string>), ParseError> {
    match r
    case Err(e) => Err(e)
    case Ok((more, rest)) => Ok((done + more, rest))
  }

  function AheadAll<T>(done: seq<T>, r: Result<seq<T>, ParseError>): Result<seq<T>, ParseError> {
    match r
    case Err(e) => Err(e)
    case Ok(more) => Ok(done + more)
  }

  lemma AheadTwice<T>(a: seq<T>, b: seq<T>, r: Result<(seq<T>, seq<string>), ParseError>)
    ensures Ahead(a, Ahead(b, r)) == Ahead(a + b, r) && Ahead([], r) == r
  {
    if r.Ok? {
      assert a + (b + r.value.0) == a + b + r.value.0;
      assert [] + r.value.0 == r.value.0;
    }
  }

  lemma AheadAllTwice<T>(a: seq<T>, b: seq<T>, r: Result<seq<T>, ParseError>)
    ensures AheadAll(a, AheadAll(b, r)) == AheadAll(a + b, r) && AheadAll([], r) == r
  {
    if r.Ok? {
      assert a + (b + r.value) == a + b + r.value;
      assert [] + r.value == r.value;
    }
  }

  lemma BodyRound(lines: seq<string>, done: seq<string>)
    requires lines != [] && !EndsBody(lines[0]) && (lines[0] == "" || HunkLine(lines[0]))
    ensures Ahead(done, ParseBody(lines))
      == Ahead(done + [if lines[0] == "" then " " else lines[0]], ParseBody(lines[1..]))
  {
    AheadTwice(done, [if lines[0] == "" then " " else lines[0]], ParseBody(lines[1..]));
  }

  lemma HunksRound(lines: seq<string>, done: seq<Hunk>, body: seq<string>, rest: seq<string>)
    requires lines != [] && StartsWith(lines[0], "@@") && HunkHeader(lines[0]).Some? && Short(HunkHeader(lines[0]).value)
    requires ParseBody(lines[1..]) == Ok((body, rest))
    ensures var m := HunkHeader(lines[0]).value;
      Ahead(done, ParseHunks(lines)) == Ahead(done + [Hunk(Value(m.0), Value(m.1), body)], ParseHunks(rest))
  {
    var m := HunkHeader(lines[0]).value;
    AheadTwice(done, [Hunk(Value(m.0), Value(m.1), body)], ParseHunks(rest));
  }

  lemma FilesRound(lines: seq<string>, done: seq<FileDiff>, hunks: seq<Hunk>, rest: seq<string>)
    requires |lines| > 1 && StartsWith(lines[0], "--- ") && StartsWith(lines[1], "+++ ")
    requires HeaderPath(lines[0][4..]).Some? || HeaderPath(lines[1][4..]).Some?
    requires ParseHunks(lines[2..]) == Ok((hunks, rest)) && hunks != []
    ensures |rest| < |lines|
    ensures AheadAll(done, ParseFiles(lines))
      == AheadAll(done + [FileDiff(HeaderPath(lines[0][4..]), HeaderPath(lines[1][4..]), hunks)], ParseFiles(rest))
  {
    HunksShrink(lines[2..]);
    AheadAllTwice(done, [FileDiff(HeaderPath(lines[0][4..]), HeaderPath(lines[1][4..]), hunks)], ParseFiles(rest));
  }

  method ReadBody(lines: seq<string>, start: nat) returns (r: Result<(seq<string>, nat), ParseError>)
    requires start <= |lines|
    ensures match r
      case Err(e) => ParseBody(lines[start..]) == Err(e)
      case Ok((body, i)) => start <= i <= |lines| && ParseBody(lines[start..]) == Ok((body, lines[i..]))
  {
    var i, body: seq<string> := start, [];
    AheadTwice([], [], ParseBody(lines[start..]));
    while i < |lines| && !EndsBody(lines[i])
      invariant start <= i <= |lines|
      invariant ParseBody(lines[start..]) == Ahead(body, ParseBody(lines[i..]))
    {
      var raw := lines[i];
      assert lines[i..][0] == raw && lines[i..][1..] == lines[i + 1..];
      if raw != "" && !HunkLine(raw) { return Err(NotADiffLine); }
      BodyRound(lines[i..], body);
      body := body + [if raw == "" then " " else raw];
      i := i + 1;
    }
    assert body + [] == body;
    return Ok((body, i));
  }

  /** One hunk: its header and its body. */
  method ReadHunk(lines: seq<string>, start: nat) returns (r: Result<(Hunk, nat), ParseError>)
    requires start < |lines| && StartsWith(lines[start], "@@")
    ensures match r
      case Err(e) => ParseHunks(lines[start..]) == Err(e)
      case Ok((hunk, i)) =>
        && start < i <= |lines|
        && forall done :: Ahead(done, ParseHunks(lines[start..])) == Ahead(done + [hunk], ParseHunks(lines[i..]))
  {
    ghost var here := lines[start..];
    assert here[0] == lines[start] && here[1..] == lines[start + 1..];
    var m := HunkHeader(lines[start]);
    if m.None? { return Err(MalformedHunkHeader); }
    var body := ReadBody(lines, start + 1);
    if body.Err? { return Err(body.error); }
    if !Short(m.value) { return Err(NumberTooLong); }
    var i, hunk := body.value.1, Hunk(Value(m.value.0), Value(m.value.1), body.value.0);
    forall done: seq<Hunk> ensures Ahead(done, ParseHunks(here)) == Ahead(done + [hunk], ParseHunks(lines[i..])) {
      HunksRound(here, done, body.value.0, lines[i..]);
    }
    return Ok((hunk, i));
  }

  method ReadHunks(lines: seq<string>, start: nat) returns (r: Result<(seq<Hunk>, nat), ParseError>)
    requires start <= |lines|
    ensures match r
      case Err(e) => ParseHunks(lines[start..]) == Err(e)
      case Ok((hunks, i)) => start <= i <= |lines| && ParseHunks(lines[start..]) == Ok((hunks, lines[i..]))
  {
    var i, hunks: seq<Hunk> := start, [];
    AheadTwice([], [], ParseHunks(lines[start..]));
    while i < |lines| && StartsWith(lines[i], "@@")
      invariant start <= i <= |lines|
      invariant ParseHunks(lines[start..]) == Ahead(hunks, ParseHunks(lines[i..]))
    {
      var one := ReadHunk(lines, i);
      if one.Err? { return Err(one.error); }
      hunks, i := hunks + [one.value.0], one.value.1;
    }
    assert hunks + [] == hunks;
    return Ok((hunks, i));
  }

  /** One file: its two header lines and its hunks. */
  method ReadFile(lines: seq<string>, start: nat) returns (r: Result<(FileDiff, nat), ParseError>)
    requires start < |lines| && StartsWith(lines[start], "--- ")
    ensures match r
      case Err(e) => ParseFiles(lines[start..]) == Err(e)
      case Ok((file, i)) =>
        && start < i <= |lines|
        && forall done :: AheadAll(done, ParseFiles(lines[start..])) == AheadAll(done + [file], ParseFiles(lines[i..]))
  {
    ghost var here := lines[start..];
    assert here[0] == lines[start] && |here| == |lines| - start;
    if start + 1 >= |lines| || !StartsWith(lines[start + 1], "+++ ") { return Err(NoPlusHeader); }
    assert here[1] == lines[start + 1] && here[2..] == lines[start + 2..];
    var before, after := HeaderPath(lines[start][4..]), HeaderPath(lines[start + 1][4..]);
    if before.None? && after.None? { return Err(BothSidesNull); }
    var hunks := ReadHunks(lines, start + 2);
    if hunks.Err? { return Err(hunks.error); }
    if hunks.value.0 == [] { return Err(NoHunk); }
    var i := hunks.value.1;
    var file := FileDiff(before, after, hunks.value.0);
    forall done: seq<FileDiff> ensures AheadAll(done, ParseFiles(here)) == AheadAll(done + [file], ParseFiles(lines[i..])) {
      FilesRound(here, done, hunks.value.0, lines[i..]);
    }
    return Ok((file, i));
  }

  method ReadFiles(lines: seq<string>) returns (r: Result<seq<FileDiff>, ParseError>)
    ensures r == ParseFiles(lines)
  {
    var i, files: seq<FileDiff> := 0, [];
    assert lines[0..] == lines;
    AheadAllTwice([], [], ParseFiles(lines));
    while i < |lines|
      invariant 0 <= i <= |lines|
      invariant ParseFiles(lines) == AheadAll(files, ParseFiles(lines[i..]))
    {
      assert lines[i..][0] == lines[i] && lines[i..][1..] == lines[i + 1..];
      if StartsWith(lines[i], "--- ") {
        var one := ReadFile(lines, i);
        if one.Err? { return Err(one.error); }
        files, i := files + [one.value.0], one.value.1;
      } else if Ignored(lines[i]) || IsBlank(lines[i]) {
        i := i + 1;
      } else {
        return Err(NotAUnifiedDiff);
      }
    }
    assert files + [] == files;
    return Ok(files);
  }

  method ParseDiff(text: string) returns (r: Result<seq<FileDiff>, ParseError>)
    ensures r == Parse(text)
  {
    if IsBlank(text) { return Err(EmptyDiff); }
    r := ReadFiles(TextLines(text));
    if r == Ok([]) { r := Err(NoFiles); }
  }
}
