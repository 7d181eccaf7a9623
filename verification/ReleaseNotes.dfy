/** The release-notes tool: commit records from the log of merges, sorted into sections, printed in order. */
module ReleaseNotes {
  import opened Wrappers
  import opened Text

  // ---------- texts ----------

  predicate IsSpace(c: char) {
    c in "\t\n\r \U{000B}\U{000C}\U{0085}\U{00A0}\U{1680}\U{2028}\U{2029}\U{202F}\U{205F}\U{3000}" || '\U{2000}' <= c <= '\U{200A}'
  }

  function TrimLeft(s: string): string {
    if s != "" && IsSpace(s[0]) then TrimLeft(s[1..]) else s
  }

  function TrimRight(s: string): string {
    if s != "" && IsSpace(s[|s| - 1]) then TrimRight(s[..|s| - 1]) else s
  }

  function Trim(s: string): string { TrimRight(TrimLeft(s)) }

  function TrimPrefix(s: string, p: string): string {
    if p <= s then s[|p|..] else s
  }

  // ---------- parsing ----------

  datatype Kind = CommitLine | MergeLine | Blank | BodyLine

  function KindOf(line: string): Kind {
    var t := Trim(line);
    if "commit" <= t then CommitLine
    else if "Merge" <= t then MergeLine
    else if t == "" then Blank
    else BodyLine
  }

  datatype Record = Record(merge: string, body: string)

  class Commit {
    var merge: string
    var body: string

    constructor ()
      ensures merge == "" && body == ""
    {
      merge, body := "", "";
    }

    function Contents(): Record
      reads this
    {
      Record(merge, body)
    }
  }

  /** A line as the parser sees it. */
  datatype Token = Token(kind: Kind, text: string)

  function Tokens(lines: seq<string>): seq<Token> {
    seq(|lines|, i requires 0 <= i < |lines| => Token(KindOf(lines[i]), Trim(lines[i])))
  }

  /** The records after one more line; none when the tool would index before the first commit. */
  function Step(rs: Option<seq<Record>>, t: Token): Option<seq<Record>> {
    if rs.None? then None
    else
      var v := rs.value;
      match t.kind
      case CommitLine => Some(v + [Record("", "")])
      case Blank => rs
      case MergeLine => if v == [] then None else Some(v[|v| - 1 := v[|v| - 1].(merge := t.text)])
      case BodyLine => if v == [] then None else Some(v[|v| - 1 := v[|v| - 1].(body := t.text)])
  }

  function Parse(ts: seq<Token>): Option<seq<Record>> {
    if ts == [] then Some([]) else Step(Parse(ts[..|ts| - 1]), ts[|ts| - 1])
  }

  ghost function Contents(commits: seq<Commit>): seq<Record>
    reads commits
  {
    seq(|commits|, i requires 0 <= i < |commits| reads commits => commits[i].Contents())
  }

  ghost predicate Distinct(commits: seq<Commit>) {
    forall i, j :: 0 <= i < j < |commits| ==> commits[i] != commits[j]
  }

  /** One turn of the parsing loop. */
  method ParseLine(commits: seq<Commit>, line: string) returns (ok: bool, commits': seq<Commit>)
    requires Distinct(commits)
    modifies commits
    ensures ok <==> Step(Some(old(Contents(commits))), Token(KindOf(line), Trim(line))).Some?
    ensures ok ==> Distinct(commits') && fresh(set c | c in commits' && c !in commits)
    ensures ok ==> Contents(commits') == Step(Some(old(Contents(commits))), Token(KindOf(line), Trim(line))).value
  {
    var t := Trim(line);
    var last := |commits| - 1;
    ok, commits' := true, commits;
    if "commit" <= t {
      var c := new Commit();
      commits' := commits + [c];
    } else if "Merge" <= t {
      if last < 0 {
        return false, [];
      }
      commits[last].merge := t;
    } else if t != "" {
      if last < 0 {
        return false, [];
      }
      commits[last].body := t;
    }
  }

  lemma OneMoreToken(ts: seq<Token>, i: nat)
    requires i < |ts|
    ensures Parse(ts[..i + 1]) == Step(Parse(ts[..i]), ts[i])
  {
    assert ts[..i + 1][..i] == ts[..i];
  }

  /** The parsing loop. It fails where the tool would panic. */
  method ParseLines(lines: seq<string>) returns (ok: bool, commits: seq<Commit>)
    ensures ok <==> Parse(Tokens(lines)).Some?
    ensures ok ==> Distinct(commits) && fresh(set c | c in commits) && Contents(commits) == Parse(Tokens(lines)).value
  {
    ghost var ts := Tokens(lines);
    commits := [];
    assert ts[..0] == [] && Contents(commits) == [];
    for i := 0 to |lines|
      invariant Distinct(commits) && fresh(set c | c in commits)
      invariant Parse(ts[..i]) == Some(Contents(commits))
    {
      OneMoreToken(ts, i);
      ok, commits := ParseLine(commits, lines[i]);
      if !ok {
        ParseFailureLasts(ts, i + 1);
        return false, [];
      }
    }
    assert ts[..|lines|] == ts;
    ok := true;
  }

  lemma {:induction false} ParseFailureLasts(ts: seq<Token>, i: nat)
    requires i <= |ts| && Parse(ts[..i]).None?
    ensures Parse(ts).None?
    decreases |ts| - i
  {
    if i == |ts| {
      assert ts[..i] == ts;
    } else {
      assert ts[..i + 1][..i] == ts[..i];
      ParseFailureLasts(ts, i + 1);
    }
  }

  // ---------- sorting ----------

  datatype Key = Proposals | Warning | Features | Bugs | Others | Documentation | Unknown

  const OUTPUT_ORDER := [Proposals, Warning, Features, Bugs, Others, Documentation, Unknown]

  /** A mark of a section: at the beginning of a title stands its word or its sign. */
  datatype Mark = Mark(word: string, sign: string, key: Key)

  const MARKS := [Mark(":sparkles:", "\U{2728}", Features), Mark(":bug:", "\U{1F41B}", Bugs),
                  Mark(":book:", "\U{1F4D6}", Documentation), Mark(":seedling:", "\U{1F331}", Others),
                  Mark(":warning:", "\U{26A0}\U{FE0F}", Warning)]

  predicate Bears(title: string, m: Mark) {
    m.word <= title || m.sign <= title
  }

  function MarkBorne(title: string, marks: seq<Mark>): Option<Mark> {
    if marks == [] then None else if Bears(title, marks[0]) then Some(marks[0]) else MarkBorne(title, marks[1..])
  }

  /** The section of a commit body and what is left of its title without the mark. */
  function Classify(body: string): (Key, string) {
    var title := Trim(body);
    match MarkBorne(title, MARKS)
    case None => (Unknown, title)
    case Some(m) =>
      var t := TrimPrefix(TrimPrefix(title, m.word), m.sign);
      if m.key == Documentation then Book(t) else (m.key, Trim(t))
  }

  /** Documentation about a proposal is a proposal. */
  function Book(t: string): (Key, string) {
    (if Contains(t, "CAEP") || Contains(t, "proposal") then Proposals else Documentation, Trim(t))
  }

  lemma {:induction false} FirstBorne(title: string, marks: seq<Mark>, i: nat)
    requires i <= |marks| && forall j :: 0 <= j < i ==> !Bears(title, marks[j])
    ensures i == |marks| ==> MarkBorne(title, marks) == None
    ensures i < |marks| && Bears(title, marks[i]) ==> MarkBorne(title, marks) == Some(marks[i])
  {
    if i > 0 {
      FirstBorne(title, marks[1..], i - 1);
    }
  }

  lemma {:induction false} TrimRightTwice(s: string)
    ensures TrimRight(TrimRight(s)) == TrimRight(s)
    ensures TrimRight(s) != "" ==> s != "" && TrimRight(s)[0] == s[0]
  {
    if s != "" && IsSpace(s[|s| - 1]) {
      TrimRightTwice(s[..|s| - 1]);
    }
  }

  lemma {:induction false} TrimLeftStops(s: string)
    ensures TrimLeft(s) != "" ==> !IsSpace(TrimLeft(s)[0])
  {
    if s != "" && IsSpace(s[0]) {
      TrimLeftStops(s[1..]);
    }
  }

  lemma TrimTwice(s: string)
    ensures Trim(Trim(s)) == Trim(s)
  {
    TrimLeftStops(s);
    TrimRightTwice(TrimLeft(s));
  }

  lemma Marked(text: string, i: nat, word: string, sign: string, key: Key)
    requires i < |MARKS| && MARKS[i] == Mark(word, sign, key)
    requires Bears(Trim(text), MARKS[i]) && forall j :: 0 <= j < i ==> !Bears(Trim(text), MARKS[j])
    ensures var t := TrimPrefix(TrimPrefix(Trim(text), word), sign);
            Classify(text) == if key == Documentation then Book(t) else (key, Trim(t))
  {
    FirstBorne(Trim(text), MARKS, i);
  }

  lemma MarksAre(title: string)
    ensures Bears(title, MARKS[0]) <==> ":sparkles:" <= title || "\U{2728}" <= title
    ensures Bears(title, MARKS[1]) <==> ":bug:" <= title || "\U{1F41B}" <= title
    ensures Bears(title, MARKS[2]) <==> ":book:" <= title || "\U{1F4D6}" <= title
    ensures Bears(title, MARKS[3]) <==> ":seedling:" <= title || "\U{1F331}" <= title
    ensures Bears(title, MARKS[4]) <==> ":warning:" <= title || "\U{26A0}\U{FE0F}" <= title
  {
  }

  /** The switch over the marks, and the trimming around it. */
  method ClassifyBody(text: string) returns (key: Key, body: string)
    ensures (key, body) == Classify(text)
  {
    body := Trim(text);
    ghost var title := body;
    ghost var sorted := Classify(text);
    if ":sparkles:" <= body || "\U{2728}" <= body {
      assert sorted == (Features, Trim(TrimPrefix(TrimPrefix(title, ":sparkles:"), "\U{2728}"))) by {
        MarksAre(title);
        Marked(text, 0, ":sparkles:", "\U{2728}", Features);
      }
      key := Features;
      body := TrimPrefix(body, ":sparkles:");
      body := TrimPrefix(body, "\U{2728}");
    } else if ":bug:" <= body || "\U{1F41B}" <= body {
      assert sorted == (Bugs, Trim(TrimPrefix(TrimPrefix(title, ":bug:"), "\U{1F41B}"))) by {
        MarksAre(title);
        Marked(text, 1, ":bug:", "\U{1F41B}", Bugs);
      }
      key := Bugs;
      body := TrimPrefix(body, ":bug:");
      body := TrimPrefix(body, "\U{1F41B}");
    } else if ":book:" <= body || "\U{1F4D6}" <= body {
      assert sorted == Book(TrimPrefix(TrimPrefix(title, ":book:"), "\U{1F4D6}")) by {
        MarksAre(title);
        Marked(text, 2, ":book:", "\U{1F4D6}", Documentation);
      }
      key := Documentation;
      body := TrimPrefix(body, ":book:");
      body := TrimPrefix(body, "\U{1F4D6}");
      if Contains(body, "CAEP") || Contains(body, "proposal") {
        key := Proposals;
      }
    } else if ":seedling:" <= body || "\U{1F331}" <= body {
      assert sorted == (Others, Trim(TrimPrefix(TrimPrefix(title, ":seedling:"), "\U{1F331}"))) by {
        MarksAre(title);
        Marked(text, 3, ":seedling:", "\U{1F331}", Others);
      }
      key := Others;
      body := TrimPrefix(body, ":seedling:");
      body := TrimPrefix(body, "\U{1F331}");
    } else if ":warning:" <= body || "\U{26A0}\U{FE0F}" <= body {
      assert sorted == (Warning, Trim(TrimPrefix(TrimPrefix(title, ":warning:"), "\U{26A0}\U{FE0F}"))) by {
        MarksAre(title);
        Marked(text, 4, ":warning:", "\U{26A0}\U{FE0F}", Warning);
      }
      key := Warning;
      body := TrimPrefix(body, ":warning:");
      body := TrimPrefix(body, "\U{26A0}\U{FE0F}");
    } else {
      assert sorted == (Unknown, Trim(title)) by {
        MarksAre(title);
        FirstBorne(title, MARKS, 5);
        TrimTwice(text);
      }
      key := Unknown;
    }
    body := Trim(body);
  }

  function UpToSpace(s: string): string {
    if s == "" || IsSpace(s[0]) then "" else [s[0]] + UpToSpace(s[1..])
  }

  /** What follows a word and one or more spaces. */
  function AfterWord(s: string, word: string): Option<string> {
    if word <= s && |s| > |word| && IsSpace(s[|word|]) then Some(TrimLeft(s[|word|..])) else None
  }

  /** The word after "Merge pull request", with any spaces between, and empty if the line is another. */
  function PrNumber(merge: string): string {
    match AfterWord(merge, "Merge")
    case None => ""
    case Some(a) =>
      match AfterWord(a, "pull")
      case None => ""
      case Some(b) =>
        match AfterWord(b, "request")
        case None => ""
        case Some(c) => UpToSpace(c)
  }

  function FormatMerge(line: string, pr: string): string {
    if pr == "" then line else line + " (" + pr + ")"
  }

  /** Where a record goes and what is printed for it: of documentation only the number. A record of whose body
      nothing is left is not kept. */
  datatype Sorted = Sorted(key: Key, kept: bool, entry: string)

  function SortOf(r: Record): Sorted {
    var (key, body) := Classify(r.body);
    Sorted(key, body != "",
           if key == Documentation then PrNumber(r.merge) else FormatMerge("- " + body, PrNumber(r.merge)))
  }

  function SortAll(rs: seq<Record>): seq<Sorted> {
    seq(|rs|, i requires 0 <= i < |rs| => SortOf(rs[i]))
  }

  /** The entries of a section. */
  function Entries(v: seq<Sorted>, key: Key): seq<string> {
    if v == [] then []
    else
      var front, last := Entries(v[..|v| - 1], key), v[|v| - 1];
      if last.kept && last.key == key then front + [last.entry] else front
  }

  function Lookup(merges: map<Key, seq<string>>, key: Key): seq<string> {
    if key in merges then merges[key] else []
  }

  /** The sorting loop: appending to a missing key starts its list. */
  method Sort(rs: seq<Record>) returns (merges: map<Key, seq<string>>)
    ensures forall k :: Lookup(merges, k) == Entries(SortAll(rs), k)
  {
    ghost var v := SortAll(rs);
    merges := map[Features := [], Bugs := [], Documentation := [], Warning := [], Others := [], Unknown := []];
    for i := 0 to |rs|
      invariant forall k :: Lookup(merges, k) == Entries(v[..i], k)
    {
      assert v[..i + 1][..i] == v[..i] && v[i] == SortOf(rs[i]);
      var key, body := ClassifyBody(rs[i].body);
      if body != "" {
        var pr := PrNumber(rs[i].merge);
        var entry := if key == Documentation then pr else FormatMerge("- " + body, pr);
        merges := merges[key := Lookup(merges, key) + [entry]];
      }
    }
    assert v[..|rs|] == v;
  }

  // ---------- printing ----------

  datatype Section = Section(key: Key, entries: seq<string>)

  function Sections(v: seq<Sorted>, order: seq<Key>): seq<Section> {
    if order == [] then []
    else
      var front, key := Sections(v, order[..|order| - 1]), order[|order| - 1];
      if Entries(v, key) == [] then front else front + [Section(key, Entries(v, key))]
  }

  /** The printing loop over the output order: empty sections are not printed. */
  method Print(ghost v: seq<Sorted>, merges: map<Key, seq<string>>) returns (printed: seq<Section>)
    requires forall k :: Lookup(merges, k) == Entries(v, k)
    ensures printed == Sections(v, OUTPUT_ORDER)
  {
    printed := [];
    for i := 0 to |OUTPUT_ORDER|
      invariant printed == Sections(v, OUTPUT_ORDER[..i])
    {
      assert OUTPUT_ORDER[..i + 1][..i] == OUTPUT_ORDER[..i];
      var key := OUTPUT_ORDER[i];
      var entries := Lookup(merges, key);
      if |entries| != 0 {
        printed := printed + [Section(key, entries)];
      }
    }
    assert OUTPUT_ORDER[..|OUTPUT_ORDER|] == OUTPUT_ORDER;
  }

  /** run, on the lines that git prints. */
  method Run(lines: seq<string>) returns (ok: bool, printed: seq<Section>)
    ensures ok <==> Parse(Tokens(lines)).Some?
    ensures ok ==> printed == Sections(SortAll(Parse(Tokens(lines)).value), OUTPUT_ORDER)
  {
    printed := [];
    var commits;
    ok, commits := ParseLines(lines);
    if ok {
      var rs := seq(|commits|, i requires 0 <= i < |commits| reads commits => commits[i].Contents());
      assert rs == Contents(commits);
      var merges := Sort(rs);
      printed := Print(SortAll(rs), merges);
    }
  }
}
