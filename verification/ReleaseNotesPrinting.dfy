/** The release notes in the letters of commit messages: which lines are what, which mark makes which section, and what is
    printed for a commit, in which order. */
module ReleaseNotesPrinting {
  import opened Wrappers
  import opened Text
  import opened ReleaseNotes
  import opened ReleaseNotesTheorems

  // ---------- trimming ----------

  predicate NoSpaces(w: string) {
    forall i :: 0 <= i < |w| ==> !IsSpace(w[i])
  }

  predicate AllSpaces(s: string) {
    forall i :: 0 <= i < |s| ==> IsSpace(s[i])
  }

  /** Neither begins nor ends with a space. */
  predicate Tight(s: string) {
    s != "" && !IsSpace(s[0]) && !IsSpace(s[|s| - 1])
  }

  lemma TightIsTrimmed(s: string)
    requires Tight(s)
    ensures Trim(s) == s
  {
  }

  lemma {:induction false} TrimLeftOf(gap: string, s: string)
    requires AllSpaces(gap) && (s == "" || !IsSpace(s[0]))
    ensures TrimLeft(gap + s) == s
  {
    if gap == "" {
      assert gap + s == s;
    } else {
      assert (gap + s)[1..] == gap[1..] + s;
      TrimLeftOf(gap[1..], s);
    }
  }

  lemma {:induction false} TrimRightCuts(s: string)
    ensures TrimRight(s) <= s
  {
    if s != "" && IsSpace(s[|s| - 1]) {
      TrimRightCuts(s[..|s| - 1]);
    }
  }

  /** A word that does not end in a space begins the trimmed text exactly when it begins the text. */
  lemma TrimRightKeepsStart(s: string, w: string)
    requires w != "" && !IsSpace(w[|w| - 1])
    ensures w <= TrimRight(s) <==> w <= s
  {
    TrimRightCuts(s);
    if w <= s {
      TrimRightKeeps(w, s[|w|..]);
      assert w + s[|w|..] == s;
    }
  }

  lemma StartUpToSpace(s: string, c: char, w: string)
    requires w != "" && NoSpaces(w) && IsSpace(c)
    ensures w <= s + [c] <==> w <= s
  {
    assert (s + [c])[|s|] == c;
  }

  lemma {:induction false} ContainsUpToSpace(s: string, c: char, w: string)
    requires w != "" && NoSpaces(w) && IsSpace(c)
    ensures Contains(s + [c], w) <==> Contains(s, w)
  {
    StartUpToSpace(s, c, w);
    if s != "" {
      assert (s + [c])[1..] == s[1..] + [c];
      ContainsUpToSpace(s[1..], c, w);
    }
  }

  lemma FrontAndLast(s: string)
    requires s != ""
    ensures s == s[..|s| - 1] + [s[|s| - 1]]
  {
  }

  lemma {:induction false} ContainsTrimmedRight(s: string, w: string)
    requires w != "" && NoSpaces(w)
    ensures Contains(TrimRight(s), w) <==> Contains(s, w)
  {
    if s != "" && IsSpace(s[|s| - 1]) {
      var front, last := s[..|s| - 1], s[|s| - 1];
      ContainsTrimmedRight(front, w);
      ContainsUpToSpace(front, last, w);
      FrontAndLast(s);
    }
  }

  // ---------- lines ----------

  /** Behind any spaces, a line that begins with "commit" starts a commit, one that begins with "Merge" names the pull
      request, one with nothing is passed over, and any other is a title. */
  lemma LinesAre(gap: string, text: string)
    requires AllSpaces(gap) && (text == "" || !IsSpace(text[0]))
    ensures KindOf(gap + text) == if text == "" then Blank
                                  else if "commit" <= text then CommitLine
                                  else if "Merge" <= text then MergeLine
                                  else BodyLine
  {
    TrimLeftOf(gap, text);
    LetterIsNoSpace('t');
    LetterIsNoSpace('e');
    TrimRightKeepsStart(text, "commit");
    TrimRightKeepsStart(text, "Merge");
    if text != "" {
      TrimRightKeepsStart(text, [text[0]]);
    }
  }

  lemma LetterIsNoSpace(c: char)
    requires 'a' <= c <= 'z' || 'A' <= c <= 'Z' || c == '#' || c == '-' || c == '(' || c == ')'
    ensures !IsSpace(c)
  {
  }

  lemma LettersAreNoSpaces(w: string)
    requires forall i :: 0 <= i < |w| ==> 'a' <= w[i] <= 'z' || 'A' <= w[i] <= 'Z'
    ensures NoSpaces(w)
  {
    forall i | 0 <= i < |w|
      ensures !IsSpace(w[i])
    {
      LetterIsNoSpace(w[i]);
    }
  }

  // ---------- marks ----------

  lemma KeyOfMark(i: nat, rest: string)
    requires i < |MARKS| && MARKS[i].key != Documentation
    ensures Classify(MARKS[i].word + rest).0 == MARKS[i].key && Classify(MARKS[i].sign + rest).0 == MARKS[i].key
  {
    TitleIsMarked(i, rest);
    MarkDecides(MARKS[i].word + rest, i);
    MarkDecides(MARKS[i].sign + rest, i);
  }

  lemma {:induction false} TrimRightBehind(p: string, rest: string)
    requires p != "" && !IsSpace(p[|p| - 1])
    ensures TrimRight(p + rest) == p + TrimRight(rest)
  {
    if rest == "" {
      assert p + rest == p;
    } else if IsSpace(rest[|rest| - 1]) {
      assert (p + rest)[..|p + rest| - 1] == p + rest[..|rest| - 1];
      TrimRightBehind(p, rest[..|rest| - 1]);
    }
  }

  lemma TrimBehind(p: string, rest: string)
    requires Tight(p)
    ensures Trim(p + rest) == p + TrimRight(rest)
  {
    assert (p + rest)[0] == p[0];
    TrimRightBehind(p, rest);
  }

  /** The words and signs of the four marks that decide alone. */
  lemma FeaturesAre(rest: string)
    ensures Classify(":sparkles:" + rest).0 == Features && Classify("\U{2728}" + rest).0 == Features
  {
    KeyOfMark(0, rest);
  }

  lemma BugsAre(rest: string)
    ensures Classify(":bug:" + rest).0 == Bugs && Classify("\U{1F41B}" + rest).0 == Bugs
  {
    KeyOfMark(1, rest);
  }

  lemma OthersAre(rest: string)
    ensures Classify(":seedling:" + rest).0 == Others && Classify("\U{1F331}" + rest).0 == Others
  {
    KeyOfMark(3, rest);
  }

  lemma WarningsAre(rest: string)
    ensures Classify(":warning:" + rest).0 == Warning && Classify("\U{26A0}\U{FE0F}" + rest).0 == Warning
  {
    KeyOfMark(4, rest);
  }

  predicate AboutProposal(s: string) {
    Contains(s, "CAEP") || Contains(s, "proposal")
  }

  lemma SignHidesNothing(t: string)
    ensures AboutProposal("\U{1F4D6}" + t) <==> AboutProposal(t)
  {
    var s := "\U{1F4D6}" + t;
    assert s[0] == '\U{1F4D6}' && s[1..] == t;
  }

  lemma TrimmedSpeaksAlike(t: string)
    ensures AboutProposal(TrimRight(t)) <==> AboutProposal(t)
  {
    LettersAreNoSpaces("CAEP");
    LettersAreNoSpaces("proposal");
    ContainsTrimmedRight(t, "CAEP");
    ContainsTrimmedRight(t, "proposal");
  }

  lemma BookDecides(t: string)
    ensures AboutProposal(TrimPrefix(TrimRight(t), "\U{1F4D6}")) <==> AboutProposal(t)
  {
    TrimmedSpeaksAlike(t);
    var s := TrimRight(t);
    if "\U{1F4D6}" <= s {
      assert s == "\U{1F4D6}" + s[1..];
      SignHidesNothing(s[1..]);
    }
  }

  lemma WordAndSign(rest: string)
    ensures TrimPrefix(TrimPrefix(":book:" + TrimRight(rest), ":book:"), "\U{1F4D6}") == TrimPrefix(TrimRight(rest), "\U{1F4D6}")
    ensures TrimPrefix(TrimPrefix("\U{1F4D6}" + TrimRight(rest), ":book:"), "\U{1F4D6}") == TrimRight(rest)
  {
    assert (":book:" + TrimRight(rest))[6..] == TrimRight(rest);
    assert ("\U{1F4D6}" + TrimRight(rest))[0] == '\U{1F4D6}' && ("\U{1F4D6}" + TrimRight(rest))[1..] == TrimRight(rest);
  }

  lemma BookTitle(body: string)
    requires Bears(Trim(body), MARKS[2])
    ensures Classify(body).0 == if AboutProposal(TrimPrefix(TrimPrefix(Trim(body), ":book:"), "\U{1F4D6}")) then Proposals
                                else Documentation
  {
    MarkDecides(body, 2);
  }

  lemma BookByWord(rest: string)
    ensures Classify(":book:" + rest).0 == if AboutProposal(rest) then Proposals else Documentation
  {
    TitleIsMarked(2, rest);
    MarksAreTight(2);
    TrimBehind(":book:", rest);
    BookTitle(":book:" + rest);
    WordAndSign(rest);
    BookDecides(rest);
  }

  lemma BookBySign(rest: string)
    ensures Classify("\U{1F4D6}" + rest).0 == if AboutProposal(rest) then Proposals else Documentation
  {
    TitleIsMarked(2, rest);
    MarksAreTight(2);
    TrimBehind("\U{1F4D6}", rest);
    BookTitle("\U{1F4D6}" + rest);
    WordAndSign(rest);
    TrimmedSpeaksAlike(rest);
  }

  /** Documentation goes to the proposals if the rest of its title speaks of one. */
  lemma BooksAre(rest: string)
    ensures Classify(":book:" + rest).0 == if AboutProposal(rest) then Proposals else Documentation
    ensures Classify("\U{1F4D6}" + rest).0 == if AboutProposal(rest) then Proposals else Documentation
  {
    BookByWord(rest);
    BookBySign(rest);
  }

  /** What is left of a marked title is what follows the mark. */
  lemma MarkedTitle(i: nat, gap: string, title: string)
    requires i < |MARKS| && AllSpaces(gap) && Tight(title) && !(MARKS[i].sign <= gap + title)
    ensures Classify(MARKS[i].word + (gap + title)).1 == title && Classify(MARKS[i].sign + (gap + title)).1 == title
  {
    var m, rest := MARKS[i], gap + title;
    TitleIsMarked(i, rest);
    MarksAreTight(i);
    TightEnd(gap, title);
    TrimBehind(m.word, rest);
    TrimBehind(m.sign, rest);
    MarkDecides(m.word + rest, i);
    MarkDecides(m.sign + rest, i);
    Residues(m.word, m.sign, rest);
    WordIsNoSign(i, rest);
    TrimLeftOf(gap, title);
  }

  lemma TightEnd(gap: string, title: string)
    requires Tight(title)
    ensures TrimRight(gap + title) == gap + title && TrimRight(title) == title
  {
    var s := gap + title;
    assert s[|s| - 1] == title[|title| - 1];
  }

  lemma Residues(word: string, sign: string, rest: string)
    ensures TrimPrefix(word + rest, word) == rest && TrimPrefix(sign + rest, sign) == rest
  {
  }

  lemma WordIsNoSign(i: nat, rest: string)
    requires i < |MARKS|
    ensures TrimPrefix(MARKS[i].sign + rest, MARKS[i].word) == MARKS[i].sign + rest
  {
    assert MARKS[i].word[0] == ':' != (MARKS[i].sign + rest)[0];
  }

  // ---------- what is printed ----------

  /** The line "Merge pull request n from f" for number n and fork f. */
  function MergeOf(n: string, f: string): string {
    "Merge" + (" " + ("pull" + (" " + ("request" + (" " + (n + (" from " + f)))))))
  }

  lemma EndKept(a: string, b: string)
    requires b != ""
    ensures (a + b)[|a + b| - 1] == b[|b| - 1]
  {
  }

  lemma MergeEnd(n: string, f: string)
    requires f != ""
    ensures MergeOf(n, f)[|MergeOf(n, f)| - 1] == f[|f| - 1]
  {
    var a := " from " + f;
    var b := n + a;
    var c := " " + b;
    var d := "request" + c;
    var e := " " + d;
    var g := "pull" + e;
    var h := " " + g;
    EndKept(" from ", f);
    EndKept(n, a);
    EndKept(" ", b);
    EndKept("request", c);
    EndKept(" ", d);
    EndKept("pull", e);
    EndKept(" ", g);
    EndKept("Merge", h);
  }

  lemma MergeBegins(n: string, f: string)
    ensures "Merge" <= MergeOf(n, f) && !("commit" <= MergeOf(n, f)) && MergeOf(n, f) != "" && MergeOf(n, f)[0] == 'M'
  {
    assert MergeOf(n, f)[0] == 'M';
  }

  lemma FromIsAfterSpace(f: string)
    ensures (" from " + f)[0] == ' ' && IsSpace(' ') && Spaces(" ")
  {
  }

  /** The pull request is named by the merge line. */
  lemma MergeLineNames(n: string, f: string)
    requires n != "" && NoSpaces(n) && Tight(f)
    ensures var merge := MergeOf(n, f); KindOf(merge) == MergeLine && Trim(merge) == merge && PrNumber(merge) == n
  {
    var merge := MergeOf(n, f);
    FromIsAfterSpace(f);
    PrNumberIsRead(" ", " ", " ", n, " from " + f);
    MergeEnd(n, f);
    MergeBegins(n, f);
    LetterIsNoSpace('M');
    TightIsTrimmed(merge);
  }

  /** A commit with its merge line, an empty line and a title. */
  function Commit(hash: string, n: string, f: string, title: string): seq<string> {
    ["commit" + hash, MergeOf(n, f), "", title]
  }

  lemma ParseOfFour(ts: seq<Token>)
    requires |ts| == 4 && ts[0].kind == CommitLine && ts[1].kind == MergeLine && ts[2].kind == Blank && ts[3].kind == BodyLine
    ensures Parse(ts) == Some([Record(ts[1].text, ts[3].text)])
  {
    OneMoreToken(ts, 0);
    OneMoreToken(ts, 1);
    OneMoreToken(ts, 2);
    OneMoreToken(ts, 3);
    assert ts[..0] == [] && ts[..4] == ts;
    assert [] + [Record("", "")] == [Record("", "")];
    assert Parse(ts[..1]) == Some([Record("", "")]);
    assert [Record("", "")][0 := Record(ts[1].text, "")] == [Record(ts[1].text, "")];
    assert Parse(ts[..2]) == Some([Record(ts[1].text, "")]);
    assert Parse(ts[..3]) == Some([Record(ts[1].text, "")]);
    assert [Record(ts[1].text, "")][0 := Record(ts[1].text, ts[3].text)] == [Record(ts[1].text, ts[3].text)];
  }

  lemma CommitBegins(hash: string)
    ensures KindOf("commit" + hash) == CommitLine && KindOf("") == Blank
  {
    LetterIsNoSpace('c');
    assert ("commit" + hash)[0] == 'c';
    LinesAre("", "commit" + hash);
    LinesAre("", "");
    assert "" + ("commit" + hash) == "commit" + hash && "" + "" == "";
  }

  lemma TitleIsBody(title: string)
    requires Tight(title) && !("commit" <= title) && !("Merge" <= title)
    ensures KindOf(title) == BodyLine && Trim(title) == title
  {
    LinesAre("", title);
    assert "" + title == title;
    TightIsTrimmed(title);
  }

  lemma TokensAre(lines: seq<string>)
    ensures |Tokens(lines)| == |lines|
    ensures forall i :: 0 <= i < |lines| ==> Tokens(lines)[i] == Token(KindOf(lines[i]), Trim(lines[i]))
  {
  }

  lemma FourLines(a: string, b: string, c: string, d: string)
    requires KindOf(a) == CommitLine && KindOf(b) == MergeLine && KindOf(c) == Blank && KindOf(d) == BodyLine
    ensures Parse(Tokens([a, b, c, d])) == Some([Record(Trim(b), Trim(d))])
  {
    TokensAre([a, b, c, d]);
    ParseOfFour(Tokens([a, b, c, d]));
  }

  lemma CommitIsParsed(hash: string, n: string, f: string, title: string)
    requires n != "" && NoSpaces(n) && Tight(f) && Tight(title) && !("commit" <= title) && !("Merge" <= title)
    ensures Parse(Tokens(Commit(hash, n, f, title))) == Some([Record(MergeOf(n, f), title)])
  {
    CommitBegins(hash);
    TitleIsBody(title);
    MergeLineNames(n, f);
    FourLines("commit" + hash, MergeOf(n, f), "", title);
  }

  lemma EntriesOfOne(key: Key, entry: string, k: Key)
    ensures Entries([Sorted(key, true, entry)], k) == if k == key then [entry] else []
  {
    var v := [Sorted(key, true, entry)];
    assert v[..0] == [] && Entries([], k) == [];
  }

  lemma SamePlace(k: Key, l: Key)
    ensures Place(k) == Place(l) ==> k == l
  {
  }

  ghost predicate OnlyEntry(v: seq<Sorted>, key: Key, entry: string) {
    forall k :: Entries(v, k) == if k == key then [entry] else []
  }

  lemma {:induction false} OneInOrder(v: seq<Sorted>, key: Key, entry: string, order: seq<Key>)
    requires OnlyEntry(v, key, entry) && forall i :: 0 <= i < |order| ==> Place(order[i]) == i
    ensures Sections(v, order) == if Place(key) < |order| then [Section(key, [entry])] else []
  {
    if order != [] {
      var n := |order| - 1;
      OneInOrder(v, key, entry, order[..n]);
      SamePlace(key, order[n]);
      assert Entries(v, order[n]) == if order[n] == key then [entry] else [];
    }
  }

  lemma OneIsPrinted(key: Key, entry: string)
    ensures Sections([Sorted(key, true, entry)], OUTPUT_ORDER) == [Section(key, [entry])]
  {
    var v := [Sorted(key, true, entry)];
    forall k
      ensures Entries(v, k) == if k == key then [entry] else []
    {
      EntriesOfOne(key, entry, k);
    }
    OneInOrder(v, key, entry, OUTPUT_ORDER);
  }

  /** What is printed for the records that the lines hold. */
  function Printed(lines: seq<string>): Option<seq<Section>> {
    match Parse(Tokens(lines))
    case None => None
    case Some(rs) => Some(Sections(SortAll(rs), OUTPUT_ORDER))
  }

  lemma OneRecord(n: string, f: string, title: string, key: Key, rest: string)
    requires n != "" && NoSpaces(n) && Tight(f) && Classify(title) == (key, rest) && rest != ""
    ensures SortAll([Record(MergeOf(n, f), title)])
         == [Sorted(key, true, if key == Documentation then n else "- " + rest + " (" + n + ")")]
  {
    MergeLineNames(n, f);
    assert "- " + rest + " (" + n + ")" == ("- " + rest) + " (" + n + ")";
  }

  /** For one merged pull request its title is printed in the section it is classified to, with the number behind it;
      of documentation the number alone. */
  lemma CommitIsPrinted(hash: string, n: string, f: string, title: string, key: Key, rest: string)
    requires n != "" && NoSpaces(n) && Tight(f) && Tight(title) && !("commit" <= title) && !("Merge" <= title)
    requires Classify(title) == (key, rest) && rest != ""
    ensures Printed(Commit(hash, n, f, title))
         == Some([Section(key, [if key == Documentation then n else "- " + rest + " (" + n + ")"])])
  {
    CommitIsParsed(hash, n, f, title);
    OneRecord(n, f, title, key, rest);
    OneIsPrinted(key, if key == Documentation then n else "- " + rest + " (" + n + ")");
  }

  lemma SpaceIsNoSign(i: nat, rest: string)
    requires i < |MARKS|
    ensures !(MARKS[i].sign <= " " + rest) && AllSpaces(" ")
  {
    MarksAreTight(i);
    assert (" " + rest)[0] == ' ' && IsSpace(' ');
  }

  lemma MarkedIsTitle(i: nat, rest: string, word: string)
    requires i < |MARKS| && Tight(rest) && word == MARKS[i].word
    ensures var s := word + (" " + rest);
            Tight(s) && !("commit" <= s) && !("Merge" <= s) && Classify(s).1 == rest
  {
    WordIsColon(i);
    ColonIsTitle(word, rest);
    SpaceIsNoSign(i, rest);
    MarkedTitle(i, " ", rest);
  }

  lemma WordIsColon(i: nat)
    requires i < |MARKS|
    ensures MARKS[i].word != "" && MARKS[i].word[0] == ':' && !IsSpace(':')
  {
    MarkCharsAreNoSpaces(':');
  }

  lemma ColonIsTitle(word: string, rest: string)
    requires word != "" && word[0] == ':' && !IsSpace(':') && Tight(rest)
    ensures var s := word + (" " + rest); Tight(s) && !("commit" <= s) && !("Merge" <= s)
  {
    var s, t := word + (" " + rest), " " + rest;
    EndKept(" ", rest);
    EndKept(word, t);
    assert s[0] == ':';
  }

  /** A feature is printed as a feature and a bug fix as a bug fix, each with its number. */
  lemma FeaturesAndFixesArePrinted(hash: string, n: string, f: string, rest: string)
    requires n != "" && NoSpaces(n) && Tight(f) && Tight(rest)
    ensures Printed(Commit(hash, n, f, ":sparkles:" + (" " + rest))) == Some([Section(Features, ["- " + rest + " (" + n + ")"])])
    ensures Printed(Commit(hash, n, f, ":bug:" + (" " + rest))) == Some([Section(Bugs, ["- " + rest + " (" + n + ")"])])
  {
    MarkedIsTitle(0, rest, ":sparkles:");
    MarkedIsTitle(1, rest, ":bug:");
    FeaturesAre(" " + rest);
    BugsAre(" " + rest);
    CommitIsPrinted(hash, n, f, ":sparkles:" + (" " + rest), Features, rest);
    CommitIsPrinted(hash, n, f, ":bug:" + (" " + rest), Bugs, rest);
  }

  /** Of documentation only the number is printed. */
  lemma DocumentationIsCounted(hash: string, n: string, f: string, rest: string)
    requires n != "" && NoSpaces(n) && Tight(f) && Tight(rest) && !AboutProposal(" " + rest)
    ensures Printed(Commit(hash, n, f, ":book:" + (" " + rest))) == Some([Section(Documentation, [n])])
  {
    MarkedIsTitle(2, rest, ":book:");
    BooksAre(" " + rest);
    CommitIsPrinted(hash, n, f, ":book:" + (" " + rest), Documentation, rest);
  }

  /** A title without a mark is printed whole, to be sorted by hand. */
  lemma UnmarkedIsPrinted(hash: string, n: string, f: string, title: string)
    requires n != "" && NoSpaces(n) && Tight(f) && Tight(title) && !("commit" <= title) && !("Merge" <= title)
    requires forall i :: 0 <= i < |MARKS| ==> !Bears(title, MARKS[i])
    ensures Printed(Commit(hash, n, f, title)) == Some([Section(Unknown, ["- " + title + " (" + n + ")"])])
  {
    TightIsTrimmed(title);
    UnmarkedIsUnknown(title);
    CommitIsPrinted(hash, n, f, title, Unknown, title);
  }

  /** Without a merge line, or with one that names no number, the title stands alone. */
  lemma NoNumberNoBrackets(merge: string, title: string, key: Key, rest: string)
    requires Classify(title) == (key, rest) && rest != "" && PrNumber(merge) == "" && key != Documentation
    ensures SortOf(Record(merge, title)) == Sorted(key, true, "- " + rest)
    ensures PrNumber("") == ""
  {
  }

  /** Of a commit without a title, or with a mark for one, nothing is printed. */
  lemma NothingToPrint(hash: string, n: string, f: string, title: string)
    requires n != "" && NoSpaces(n) && Tight(f) && Tight(title) && !("commit" <= title) && !("Merge" <= title)
    requires Classify(title).1 == ""
    ensures Printed(Commit(hash, n, f, title)) == Some([])
    ensures !SortOf(Record(MergeOf(n, f), "")).kept
  {
    CommitIsParsed(hash, n, f, title);
    var r := Record(MergeOf(n, f), title);
    assert SortAll([r]) == [SortOf(r)];
    NotKeptIsNotPrinted(SortOf(r), OUTPUT_ORDER);
    NothingIsUnknown();
  }

  lemma {:induction false} NotKeptIsNotPrinted(x: Sorted, order: seq<Key>)
    requires !x.kept
    ensures Sections([x], order) == []
  {
    if order != [] {
      NotKeptIsNotPrinted(x, order[..|order| - 1]);
      assert [x][..0] == [] && Entries([x], order[|order| - 1]) == [];
    }
  }

  lemma NothingIsUnknown()
    ensures Classify("") == (Unknown, "")
  {
    assert Trim("") == "";
    UnmarkedIsUnknown("");
    forall i | 0 <= i < |MARKS|
      ensures !Bears("", MARKS[i])
    {
      MarksAreTight(i);
    }
  }

  // ---------- the order of the sections ----------

  ghost predicate InOrder(s: seq<Section>) {
    forall i, j :: 0 <= i < j < |s| ==> Place(s[i].key) < Place(s[j].key)
  }

  /** The sections are those of the first n places that have entries, with all of these. */
  ghost predicate Complete(v: seq<Sorted>, s: seq<Section>, n: nat) {
    && (forall i :: 0 <= i < |s| ==> s[i].entries == Entries(v, s[i].key) != [] && Place(s[i].key) < n)
    && forall k :: Entries(v, k) != [] && Place(k) < n ==> exists i :: 0 <= i < |s| && s[i].key == k
  }

  lemma LastInOrder(front: seq<Section>, last: Section)
    requires InOrder(front) && forall i :: 0 <= i < |front| ==> Place(front[i].key) < Place(last.key)
    ensures InOrder(front + [last])
  {
    var s := front + [last];
    forall i, j | 0 <= i < j < |s|
      ensures Place(s[i].key) < Place(s[j].key)
    {
      assert s[i] == front[i];
      if j < |front| {
        assert s[j] == front[j];
      }
    }
  }

  lemma LastIsThere(v: seq<Sorted>, front: seq<Section>, n: nat, last: Section, k: Key) returns (i: nat)
    requires Complete(v, front, n) && Place(last.key) == n && Entries(v, k) != [] && Place(k) < n + 1
    ensures i < |front + [last]| && (front + [last])[i].key == k
  {
    if Place(k) == n {
      SamePlace(k, last.key);
      i := |front|;
    } else {
      i :| 0 <= i < |front| && front[i].key == k;
      assert (front + [last])[i] == front[i];
    }
  }

  lemma OneMoreSection(v: seq<Sorted>, front: seq<Section>, n: nat, key: Key)
    requires Complete(v, front, n) && InOrder(front) && Place(key) == n && Entries(v, key) != []
    ensures var s := front + [Section(key, Entries(v, key))]; Complete(v, s, n + 1) && InOrder(s)
  {
    var last := Section(key, Entries(v, key));
    var s := front + [last];
    LastInOrder(front, last);
    forall i | 0 <= i < |s|
      ensures s[i].entries == Entries(v, s[i].key) != [] && Place(s[i].key) < n + 1
    {
      assert s[i] == if i < |front| then front[i] else last;
    }
    forall k | Entries(v, k) != [] && Place(k) < n + 1
      ensures exists i :: 0 <= i < |s| && s[i].key == k
    {
      var i := LastIsThere(v, front, n, last, k);
    }
  }

  lemma {:induction false} OrderedSections(v: seq<Sorted>, order: seq<Key>)
    requires forall i :: 0 <= i < |order| ==> Place(order[i]) == i
    ensures InOrder(Sections(v, order)) && Complete(v, Sections(v, order), |order|)
  {
    if order != [] {
      var n := |order| - 1;
      OrderedSections(v, order[..n]);
      if Entries(v, order[n]) != [] {
        OneMoreSection(v, Sections(v, order[..n]), n, order[n]);
      } else {
        StillComplete(v, Sections(v, order[..n]), n, order[n]);
      }
    }
  }

  /** Sections are printed in this order: proposals, breaking changes, features, bug fixes, others, documentation, and
      what is to be sorted by hand; each once, with all its entries, and none without. */
  lemma SectionsAreInOrder(v: seq<Sorted>)
    ensures var s := Sections(v, OUTPUT_ORDER); InOrder(s) && Complete(v, s, 7)
  {
    OrderedSections(v, OUTPUT_ORDER);
  }

  lemma StillComplete(v: seq<Sorted>, s: seq<Section>, n: nat, last: Key)
    requires Complete(v, s, n) && Place(last) == n && Entries(v, last) == []
    ensures Complete(v, s, n + 1)
  {
    assert forall k :: Place(k) == n ==> k == last;
  }
}
