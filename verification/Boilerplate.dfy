/** The licence-header check and its repair, over texts with line-feed line ends. */
module Boilerplate {
  import opened Wrappers
  import opened Text

  // ---------- years ----------

  function Digit(d: nat): char { "0123456789"[d % 10] }

  function YearText(y: nat): (s: string)
    ensures |s| == 4 && forall i :: 0 <= i < 4 ==> '0' <= s[i] <= '9'
  {
    [Digit(y / 1000), Digit(y / 100), Digit(y / 10), Digit(y)]
  }

  predicate IsDate(w: string, now: nat) {
    exists y | 2014 <= y <= now :: w == YearText(y)
  }

  /** The pattern "2014|2015|...|now". */
  function Dates(now: nat): Hit { w => IsDate(w, now) }

  /** The pattern "YEAR". */
  function Year(): Hit { w => w == "YEAR" }

  // ---------- what may stand above the header ----------

  datatype Pattern = BuildTags | Shebang

  predicate StartsBuildLine(s: string) { "// +build" <= s && |Head(s, '\n')| < |s| }

  function LineLength(s: string): (n: nat)
    requires |Head(s, '\n')| < |s|
    ensures 1 <= n <= |s| && s[n - 1] == '\n'
  {
    |Head(s, '\n')| + 1
  }

  /** Build lines to the end of the block and the blank line after it. */
  function BuildTail(s: string): (r: Option<nat>)
    ensures r.Some? ==> 1 <= r.value <= |s|
    decreases |s|
  {
    if s != "" && s[0] == '\n' then Some(1)
    else if StartsBuildLine(s) then
      match BuildTail(s[LineLength(s)..])
      case None => None
      case Some(n) => Some(LineLength(s) + n)
    else None
  }

  function LineFeeds(s: string): (n: nat)
    ensures n <= |s| && forall i :: 0 <= i < n ==> s[i] == '\n'
  {
    if s == "" || s[0] != '\n' then 0 else 1 + LineFeeds(s[1..])
  }

  /** The length of a match at the beginning of a line. */
  function MatchAt(p: Pattern, s: string): (r: Option<nat>)
    ensures r.Some? ==> 1 <= r.value <= |s|
  {
    match p
    case BuildTags => if StartsBuildLine(s) then BuildTail(s) else None
    case Shebang =>
      if "#!" <= s && |Head(s, '\n')| < |s| then Some(LineLength(s) + LineFeeds(s[LineLength(s)..])) else None
  }

  datatype Span = Span(start: nat, length: nat)

  /** The leftmost match at the beginning of a line of s, where s is the beginning of a line. */
  function Search(p: Pattern, s: string): (r: Option<Span>)
    ensures r.Some? ==> r.value.start + r.value.length <= |s|
    decreases |s|
  {
    match MatchAt(p, s)
    case Some(n) => Some(Span(0, n))
    case None =>
      if |Head(s, '\n')| == |s| then None
      else
        match Search(p, s[LineLength(s)..])
        case None => None
        case Some(m) => Some(Span(LineLength(s) + m.start, m.length))
  }

  /** match_and_delete: the text without the leftmost match, and the match. */
  function MatchAndDelete(content: string, p: Pattern): (string, Option<string>) {
    match Search(p, content)
    case None => (content, None)
    case Some(m) => (content[..m.start] + content[m.start + m.length..], Some(content[m.start..m.start + m.length]))
  }

  function PatternOf(extension: string): Option<Pattern> {
    if extension == "go" || extension == "generatego" then Some(BuildTags)
    else if extension == "sh" then Some(Shebang)
    else None
  }

  function ReplaceSpecials(content: string, extension: string): (string, Option<string>) {
    match PatternOf(extension)
    case None => (content, None)
    case Some(p) => MatchAndDelete(content, p)
  }

  // ---------- which reference ----------

  datatype FileName = FileName(extension: string, base: string, skipped: bool)

  datatype Error = NoReference

  /** The reference with its extension, or no reference for a file without an extension. */
  datatype Analysis = Analysis(ref: Option<seq<string>>, extension: string, generated: bool)

  predicate IsGenerated(name: FileName, content: string) {
    !name.skipped && Contains(content, "DO NOT EDIT")
  }

  function AnalyzeFile(name: FileName, content: string, refs: map<string, seq<string>>): Result<Analysis, Error> {
    var generated := IsGenerated(name, content);
    var extension := if generated then "generatego" else name.extension;
    if extension != "" then
      if extension in refs then Ok(Analysis(Some(refs[extension]), extension, generated)) else Err(NoReference)
    else
      Ok(Analysis(if name.base in refs then Some(refs[name.base]) else None, extension, generated))
  }

  // ---------- the check ----------

  /** The first line with a date gets all its dates replaced by YEAR. */
  function Undated(lines: seq<string>, now: nat): seq<string> {
    if lines == [] then []
    else if Has(lines[0], Dates(now)) then [ReplaceAll(lines[0], Dates(now), "YEAR")] + lines[1..]
    else [lines[0]] + Undated(lines[1..], now)
  }

  predicate HeaderPasses(header: seq<string>, ref: seq<string>, generated: bool, now: nat) {
    && (forall d :: d in header ==> !Has(d, Year()))
    && (if generated then header else Undated(header, now)) == ref
  }

  predicate Passes(content: string, a: Analysis, now: nat) {
    match a.ref
    case None => true
    case Some(ref) =>
      var lines := Lines(ReplaceSpecials(content, a.extension).0);
      |ref| <= |lines| && HeaderPasses(lines[..|ref|], ref, a.generated, now)
  }

  lemma {:induction false} UndatedByFirst(v: seq<string>, i: nat, now: nat)
    requires i <= |v| && forall j :: 0 <= j < i ==> !Has(v[j], Dates(now))
    ensures i == |v| ==> Undated(v, now) == v
    ensures i < |v| && Has(v[i], Dates(now)) ==> Undated(v, now) == v[i := ReplaceAll(v[i], Dates(now), "YEAR")]
  {
    if i > 0 {
      UndatedByFirst(v[1..], i - 1, now);
      if i < |v| && Has(v[i], Dates(now)) {
        assert v[1..][i - 1] == v[i];
        assert [v[0]] + v[1..][i - 1 := ReplaceAll(v[i], Dates(now), "YEAR")] == v[i := ReplaceAll(v[i], Dates(now), "YEAR")];
      }
    }
  }

  /** file_content_passes */
  method FileContentPasses(content: string, a: Analysis, now: nat) returns (ok: bool)
    ensures ok == Passes(content, a, now)
    ensures a.ref.None? ==> ok
  {
    if a.ref.None? {
      return true;
    }
    var ref := a.ref.value;
    var (stripped, _) := ReplaceSpecials(content, a.extension);
    var data := Lines(stripped);
    if |ref| > |data| {
      return false;
    }
    data := data[..|ref|];
    for i := 0 to |data|
      invariant forall j :: 0 <= j < i ==> !Has(data[j], Year())
    {
      if Has(data[i], Year()) {
        assert data[i] in data;
        return false;
      }
    }
    if !a.generated {
      ghost var header := data;
      var i := 0;
      while i < |data|
        invariant i <= |data| && data == header
        invariant forall j :: 0 <= j < i ==> !Has(data[j], Dates(now))
      {
        if Has(data[i], Dates(now)) {
          UndatedByFirst(header, i, now);
          data := data[i := ReplaceAll(data[i], Dates(now), "YEAR")];
          break;
        }
        i := i + 1;
      }
      UndatedByFirst(header, i, now);
    }
    ok := ref == data;
  }

  // ---------- the repair ----------

  /** The special part, the reference dated with the current year, a line end, and the rest. */
  function Repaired(content: string, ref: seq<string>, extension: string, now: nat): string {
    var (rest, special) := ReplaceSpecials(content, extension);
    (if special.Some? then special.value else "")
    + ReplaceFirst(Join(ref, '\n'), Year(), YearText(now)) + "\n" + rest
  }

  /** A file opened for reading and writing: writing goes from the beginning and does not truncate. */
  class TextFile {
    var text: string

    method WriteFromStart(s: string)
      modifies this
      ensures text == s + (if |s| < |old(text)| then old(text)[|s|..] else "")
    {
      text := s + (if |s| < |text| then text[|s|..] else "");
    }
  }

  /** ensure_boilerplate_file: without a reference it fails and leaves the file alone. */
  method EnsureBoilerplateFile(file: TextFile, name: FileName, refs: map<string, seq<string>>, now: nat) returns (ok: bool)
    modifies file
    ensures var a := AnalyzeFile(name, old(file.text), refs);
            if a.Ok? && a.value.ref.Some? then
              ok && file.text == Repaired(old(file.text), a.value.ref.value, a.value.extension, now)
            else
              !ok && file.text == old(file.text)
  {
    var content := file.text;
    var a := AnalyzeFile(name, content, refs);
    if a.Err? || a.value.ref.None? {
      return false;
    }
    var header := Join(a.value.ref.value, '\n');
    var (rest, special) := ReplaceSpecials(content, a.value.extension);
    var newContent := "";
    if special.Some? {
      newContent := newContent + special.value;
    }
    newContent := newContent + ReplaceFirst(header, Year(), YearText(now));
    newContent := newContent + ("\n" + rest);
    assert newContent == Repaired(content, a.value.ref.value, a.value.extension, now);
    RepairedIsLonger(content, a.value.ref.value, a.value.extension, now);
    file.WriteFromStart(newContent);
    ok := true;
  }

  /** Deleting and keeping the match accounts for every character. */
  lemma SpecialsSplit(content: string, extension: string)
    ensures var (rest, special) := ReplaceSpecials(content, extension);
            match special
            case None => rest == content
            case Some(t) => exists i :: 0 <= i <= |rest| && content == rest[..i] + t + rest[i..]
  {
    var (rest, special) := ReplaceSpecials(content, extension);
    if special.Some? {
      var m := Search(PatternOf(extension).value, content).value;
      assert rest[..m.start] == content[..m.start] && rest[m.start..] == content[m.start + m.length..];
      assert content == rest[..m.start] + special.value + rest[m.start..];
    }
  }

  lemma {:induction false} SameLength(s: string, now: nat)
    ensures |ReplaceFirst(s, Year(), YearText(now))| == |s|
  {
    if |s| >= 4 && s[..4] != "YEAR" {
      SameLength(s[1..], now);
    }
  }

  /** The new text is longer than the old by exactly the header and one line end. */
  lemma RepairedIsLonger(content: string, ref: seq<string>, extension: string, now: nat)
    ensures |Repaired(content, ref, extension, now)| == |content| + |Join(ref, '\n')| + 1
  {
    SpecialsSplit(content, extension);
    SameLength(Join(ref, '\n'), now);
    var (rest, special) := ReplaceSpecials(content, extension);
    if special.Some? {
      var i :| 0 <= i <= |rest| && content == rest[..i] + special.value + rest[i..];
    }
  }
}
