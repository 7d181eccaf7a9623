/** The release notes lose nothing and print nothing twice. */
module ReleaseNotesTheorems {
  import opened Wrappers
  import opened Text
  import opened ReleaseNotes

  // ---------- parsing ----------

  /** Where the commit lines are. */
  function Starts(ts: seq<Token>): (v: seq<nat>)
    ensures forall i :: 0 <= i < |v| ==> v[i] < |ts| && ts[v[i]].kind == CommitLine
    ensures forall i, j :: 0 <= i < j < |v| ==> v[i] < v[j]
  {
    if ts == [] then []
    else
      var front := Starts(ts[..|ts| - 1]);
      if ts[|ts| - 1].kind == CommitLine then front + [|ts| - 1] else front
  }

  /** The last line of a kind, trimmed; empty if there is none. */
  function LastOf(ts: seq<Token>, kind: Kind): string {
    if ts == [] then ""
    else if ts[|ts| - 1].kind == kind then ts[|ts| - 1].text
    else LastOf(ts[..|ts| - 1], kind)
  }

  /** The lines after commit line i up to the next one. */
  function Block(ts: seq<Token>, i: nat): seq<Token>
    requires i < |Starts(ts)|
  {
    var v := Starts(ts);
    ts[v[i] + 1..if i + 1 < |v| then v[i + 1] else |ts|]
  }

  /** The first line that is not blank, if there is one, is a commit line. */
  predicate StartsWithCommit(ts: seq<Token>) {
    ts == [] || ts[0].kind == CommitLine || (ts[0].kind == Blank && StartsWithCommit(ts[1..]))
  }

  predicate HasCommit(ts: seq<Token>) {
    ts != [] && (ts[0].kind == CommitLine || HasCommit(ts[1..]))
  }

  lemma {:induction false} HasCommitAtEnd(front: seq<Token>, last: Token)
    ensures HasCommit(front + [last]) <==> HasCommit(front) || last.kind == CommitLine
  {
    if front == [] {
      assert ([] + [last])[1..] == [];
    } else {
      assert (front + [last])[1..] == front[1..] + [last];
      HasCommitAtEnd(front[1..], last);
    }
  }

  lemma {:induction false} StartsOfCommits(ts: seq<Token>)
    ensures Starts(ts) != [] <==> HasCommit(ts)
  {
    if ts != [] {
      var front, last := ts[..|ts| - 1], ts[|ts| - 1];
      StartsOfCommits(front);
      HasCommitAtEnd(front, last);
      assert ts == front + [last];
    }
  }

  lemma {:induction false} OneMoreLine(front: seq<Token>, last: Token)
    ensures StartsWithCommit(front + [last])
       <==> StartsWithCommit(front) && (last.kind == CommitLine || last.kind == Blank || HasCommit(front))
  {
    var ts := front + [last];
    if front == [] {
      assert ts[0] == last && ts[1..] == [];
    } else {
      assert ts[0] == front[0] && ts[1..] == front[1..] + [last];
      OneMoreLine(front[1..], last);
    }
  }

  /** Parsing succeeds exactly when the first non-blank line is a commit line. */
  lemma {:induction false} ParseSucceedsIff(ts: seq<Token>)
    ensures Parse(ts).Some? <==> StartsWithCommit(ts)
    ensures Parse(ts).Some? ==> |Parse(ts).value| == |Starts(ts)|
  {
    if ts != [] {
      var front, last := ts[..|ts| - 1], ts[|ts| - 1];
      ParseSucceedsIff(front);
      OneMoreLine(front, last);
      StartsOfCommits(front);
      assert ts == front + [last];
    }
  }

  lemma SliceOfFront(ts: seq<Token>, a: nat, b: nat)
    requires ts != [] && a <= b < |ts|
    ensures ts[..|ts| - 1][a..b] == ts[a..b]
    ensures ts[a..|ts|] == ts[..|ts| - 1][a..|ts| - 1] + [ts[|ts| - 1]]
  {
  }

  lemma BlockGrows(ts: seq<Token>, i: nat)
    requires ts != [] && i < |Starts(ts[..|ts| - 1])|
    ensures var front, last := ts[..|ts| - 1], ts[|ts| - 1];
            && i < |Starts(ts)|
            && Block(ts, i) == if last.kind != CommitLine && i == |Starts(front)| - 1
                               then Block(front, i) + [last] else Block(front, i)
  {
    var front := ts[..|ts| - 1];
    var v := Starts(front);
    assert Starts(ts) == if ts[|ts| - 1].kind == CommitLine then v + [|ts| - 1] else v;
    SliceOfFront(ts, v[i] + 1, if i + 1 < |v| then v[i + 1] else |ts| - 1);
  }

  function RecordOf(block: seq<Token>): Record {
    Record(LastOf(block, MergeLine), LastOf(block, BodyLine))
  }

  lemma RecordGrows(block: seq<Token>, last: Token)
    ensures var r := RecordOf(block);
            RecordOf(block + [last]) == match last.kind
                                        case MergeLine => r.(merge := last.text)
                                        case BodyLine => r.(body := last.text)
                                        case _ => r
  {
    assert (block + [last])[..|block|] == block;
  }

  /** Then there is one record for each commit line, holding the last merge line and the last other line of the
      lines up to the next commit line. */
  lemma {:induction false} RecordsAreBlocks(ts: seq<Token>, i: nat)
    requires Parse(ts).Some? && i < |Starts(ts)|
    ensures |Parse(ts).value| == |Starts(ts)|
    ensures Parse(ts).value[i] == RecordOf(Block(ts, i))
  {
    ParseSucceedsIff(ts);
    var n := |ts| - 1;
    var front, last := ts[..n], ts[n];
    ParseSucceedsIff(front);
    if i < |Starts(front)| {
      RecordsAreBlocks(front, i);
      BlockGrows(ts, i);
      RecordGrows(Block(front, i), last);
    } else {
      assert Block(ts, i) == [];
    }
  }

  // ---------- sorting ----------

  /** No title bears two marks, so the order of the cases does not matter. */
  lemma MarksExclude(title: string, i: nat, j: nat)
    requires i < |MARKS| && j < |MARKS| && Bears(title, MARKS[i]) && Bears(title, MARKS[j])
    ensures i == j
  {
    assert MARKS[i].word[0] == MARKS[j].word[0] == ':';
    assert title[0] == ':' ==> title[1] == MARKS[i].word[1] == MARKS[j].word[1] && title[2] == MARKS[i].word[2] == MARKS[j].word[2];
    assert title[0] != ':' ==> title[0] == MARKS[i].sign[0] == MARKS[j].sign[0];
  }

  /** A marked title goes to the section of its mark, whichever stands first in the table, documentation about a
      proposal to the proposals, and what is left is the title without the mark. */
  lemma MarkDecides(body: string, i: nat)
    requires i < |MARKS| && Bears(Trim(body), MARKS[i])
    ensures var m := MARKS[i];
            var t := TrimPrefix(TrimPrefix(Trim(body), m.word), m.sign);
            Classify(body) == (if m.key == Documentation && (Contains(t, "CAEP") || Contains(t, "proposal")) then Proposals
                               else m.key, Trim(t))
  {
    forall j: nat | j < i
      ensures !Bears(Trim(body), MARKS[j])
    {
      if Bears(Trim(body), MARKS[j]) {
        MarksExclude(Trim(body), i, j);
      }
    }
    FirstBorne(Trim(body), MARKS, i);
  }

  /** An unmarked title is left whole, to be sorted by hand; and only an unmarked one is. */
  lemma UnmarkedIsUnknown(body: string)
    ensures Classify(body).0 == Unknown <==> forall i :: 0 <= i < |MARKS| ==> !Bears(Trim(body), MARKS[i])
    ensures Classify(body).0 == Unknown ==> Classify(body) == (Unknown, Trim(body))
  {
    if i :| 0 <= i < |MARKS| && Bears(Trim(body), MARKS[i]) {
      MarkDecides(body, i);
    } else {
      FirstBorne(Trim(body), MARKS, |MARKS|);
    }
  }

  lemma {:induction false} TrimRightKeeps(p: string, rest: string)
    requires p != "" && !IsSpace(p[|p| - 1])
    ensures p <= TrimRight(p + rest)
  {
    if rest == "" {
      assert p + rest == p;
    } else if IsSpace(rest[|rest| - 1]) {
      assert (p + rest)[..|p + rest| - 1] == p + rest[..|rest| - 1];
      TrimRightKeeps(p, rest[..|rest| - 1]);
    }
  }

  lemma TrimKeeps(p: string, rest: string)
    requires p != "" && !IsSpace(p[0]) && !IsSpace(p[|p| - 1])
    ensures p <= Trim(p + rest)
  {
    assert (p + rest)[0] == p[0];
    TrimRightKeeps(p, rest);
  }

  predicate MarkChar(c: char) {
    c == ':' || c == '\U{2728}' || c == '\U{1F41B}' || c == '\U{1F4D6}' || c == '\U{1F331}' || c == '\U{26A0}' || c == '\U{FE0F}'
  }

  lemma MarkCharsAreNoSpaces(c: char)
    requires MarkChar(c)
    ensures !IsSpace(c)
  {
  }

  lemma MarksAreTight(i: nat)
    requires i < |MARKS|
    ensures var m := MARKS[i];
            && m.word != "" && !IsSpace(m.word[0]) && !IsSpace(m.word[|m.word| - 1])
            && m.sign != "" && !IsSpace(m.sign[0]) && !IsSpace(m.sign[|m.sign| - 1])
  {
    var m := MARKS[i];
    MarkCharsAreNoSpaces(m.word[0]);
    MarkCharsAreNoSpaces(m.word[|m.word| - 1]);
    MarkCharsAreNoSpaces(m.sign[0]);
    MarkCharsAreNoSpaces(m.sign[|m.sign| - 1]);
  }

  /** A title that begins with a mark bears it after trimming, whatever follows. */
  lemma TitleIsMarked(i: nat, rest: string)
    requires i < |MARKS|
    ensures Bears(Trim(MARKS[i].word + rest), MARKS[i]) && Bears(Trim(MARKS[i].sign + rest), MARKS[i])
  {
    MarksAreTight(i);
    TrimKeeps(MARKS[i].word, rest);
    TrimKeeps(MARKS[i].sign, rest);
  }

  lemma {:induction false} UpToSpaceStops(n: string, rest: string)
    requires (forall i :: 0 <= i < |n| ==> !IsSpace(n[i])) && (rest == "" || IsSpace(rest[0]))
    ensures UpToSpace(n + rest) == n
  {
    if n == "" {
      assert n + rest == rest;
    } else {
      assert (n + rest)[1..] == n[1..] + rest;
      UpToSpaceStops(n[1..], rest);
    }
  }

  predicate Spaces(s: string) {
    s != "" && forall i :: 0 <= i < |s| ==> IsSpace(s[i])
  }

  lemma {:induction false} SpacesAreTrimmed(gap: string, word: string)
    requires Spaces(gap) && word != "" && !IsSpace(word[0])
    ensures TrimLeft(gap + word) == word
  {
    if |gap| == 1 {
      assert (gap + word)[1..] == word;
    } else {
      assert (gap + word)[1..] == gap[1..] + word;
      SpacesAreTrimmed(gap[1..], word);
    }
  }

  lemma WordAfter(head: string, gap: string, word: string)
    requires Spaces(gap) && word != "" && !IsSpace(word[0])
    ensures AfterWord(head + (gap + word), head) == Some(word)
  {
    var line := head + (gap + word);
    assert line[..|head|] == head && line[|head|..] == gap + word && line[|head|] == gap[0];
    SpacesAreTrimmed(gap, word);
  }

  /** The number is read from the merge line that names it, whatever spaces stand between the words. */
  lemma PrNumberIsRead(a: string, b: string, c: string, n: string, rest: string)
    requires Spaces(a) && Spaces(b) && Spaces(c)
    requires n != "" && (forall i :: 0 <= i < |n| ==> !IsSpace(n[i])) && (rest == "" || IsSpace(rest[0]))
    ensures PrNumber("Merge" + (a + ("pull" + (b + ("request" + (c + (n + rest))))))) == n
  {
    var last := n + rest;
    assert last[0] == n[0];
    WordAfter("request", c, last);
    WordAfter("pull", b, "request" + (c + last));
    WordAfter("Merge", a, "pull" + (b + ("request" + (c + last))));
    UpToSpaceStops(n, rest);
  }

  // ---------- conservation ----------

  /** Each kept record with its section, in the order of the records. */
  function Tagged(v: seq<Sorted>): seq<(Key, string)> {
    if v == [] then []
    else
      var front, last := Tagged(v[..|v| - 1]), v[|v| - 1];
      if last.kept then front + [(last.key, last.entry)] else front
  }

  function WithKey(key: Key, entries: seq<string>): seq<(Key, string)> {
    seq(|entries|, i requires 0 <= i < |entries| => (key, entries[i]))
  }

  /** Everything printed, each entry with the section it is printed in. */
  function Flatten(sections: seq<Section>): seq<(Key, string)> {
    if sections == [] then []
    else
      var last := sections[|sections| - 1];
      Flatten(sections[..|sections| - 1]) + WithKey(last.key, last.entries)
  }

  lemma {:induction false} EntriesCount(v: seq<Sorted>, key: Key, entry: string)
    ensures multiset(Tagged(v))[(key, entry)] == multiset(Entries(v, key))[entry]
  {
    if v != [] {
      EntriesCount(v[..|v| - 1], key, entry);
    }
  }

  lemma {:induction false} WithKeyCount(k: Key, entries: seq<string>, key: Key, entry: string)
    ensures multiset(WithKey(k, entries))[(key, entry)] == if k == key then multiset(entries)[entry] else 0
  {
    if entries != [] {
      var front, last := entries[..|entries| - 1], entries[|entries| - 1];
      WithKeyCount(k, front, key, entry);
      assert WithKey(k, entries) == WithKey(k, front) + [(k, last)];
      assert entries == front + [last];
    }
  }

  /** How often an order lists a section. */
  function Listed(order: seq<Key>, key: Key): nat {
    if order == [] then 0
    else Listed(order[..|order| - 1], key) + if order[|order| - 1] == key then 1 else 0
  }

  function Times(m: nat, c: nat): nat {
    if m == 0 then 0 else Times(m - 1, c) + c
  }

  /** The same, section by section of the order, with the empty ones. */
  function Flat(v: seq<Sorted>, order: seq<Key>): seq<(Key, string)> {
    if order == [] then []
    else
      var last := order[|order| - 1];
      Flat(v, order[..|order| - 1]) + WithKey(last, Entries(v, last))
  }

  lemma {:induction false} FlattenIsFlat(v: seq<Sorted>, order: seq<Key>)
    ensures Flatten(Sections(v, order)) == Flat(v, order)
  {
    if order != [] {
      var front, last := order[..|order| - 1], order[|order| - 1];
      FlattenIsFlat(v, front);
      var s := Sections(v, front);
      if Entries(v, last) == [] {
        assert Flat(v, front) + WithKey(last, []) == Flat(v, front);
      } else {
        assert (s + [Section(last, Entries(v, last))])[..|s|] == s;
      }
    }
  }

  /** c for each time the order lists the section. */
  function Often(c: nat, order: seq<Key>, key: Key): nat {
    if order == [] then 0 else Often(c, order[..|order| - 1], key) + if order[|order| - 1] == key then c else 0
  }

  lemma {:induction false} OftenIsTimes(c: nat, order: seq<Key>, key: Key)
    ensures Often(c, order, key) == Times(Listed(order, key), c)
  {
    if order != [] {
      OftenIsTimes(c, order[..|order| - 1], key);
    }
  }

  lemma FlatStep(v: seq<Sorted>, order: seq<Key>, key: Key, entry: string)
    requires order != []
    ensures multiset(Flat(v, order))[(key, entry)]
         == multiset(Flat(v, order[..|order| - 1]))[(key, entry)]
            + if order[|order| - 1] == key then multiset(Entries(v, key))[entry] else 0
  {
    var front, last := order[..|order| - 1], order[|order| - 1];
    WithKeyCount(last, Entries(v, last), key, entry);
    CountInConcat(Flat(v, front), WithKey(last, Entries(v, last)), (key, entry));
  }

  lemma {:induction false} FlatCount(v: seq<Sorted>, order: seq<Key>, key: Key, entry: string)
    ensures multiset(Flat(v, order))[(key, entry)] == Often(multiset(Entries(v, key))[entry], order, key)
  {
    if order != [] {
      FlatCount(v, order[..|order| - 1], key, entry);
      FlatStep(v, order, key, entry);
    }
  }

  /** An entry is printed in a section once for each time the order lists the section. */
  lemma PrintedCount(v: seq<Sorted>, order: seq<Key>, key: Key, entry: string)
    ensures multiset(Flatten(Sections(v, order)))[(key, entry)] == Times(Listed(order, key), multiset(Entries(v, key))[entry])
  {
    FlattenIsFlat(v, order);
    FlatCount(v, order, key, entry);
    OftenIsTimes(multiset(Entries(v, key))[entry], order, key);
  }

  lemma CountInConcat(a: seq<(Key, string)>, b: seq<(Key, string)>, x: (Key, string))
    ensures multiset(a + b)[x] == multiset(a)[x] + multiset(b)[x]
  {
  }

  /** What is printed is what was kept, whatever the records: nothing lost, nothing twice, each in its section. */
  ghost predicate Conserves(order: seq<Key>) {
    forall v :: multiset(Flatten(Sections(v, order))) == multiset(Tagged(v))
  }

  ghost predicate OnceEach(order: seq<Key>) {
    forall k :: Listed(order, k) == 1
  }

  lemma OnceEachConserves(v: seq<Sorted>, order: seq<Key>)
    requires OnceEach(order)
    ensures multiset(Flatten(Sections(v, order))) == multiset(Tagged(v))
  {
    forall pair: (Key, string)
      ensures multiset(Flatten(Sections(v, order)))[pair] == multiset(Tagged(v))[pair]
    {
      PrintedCount(v, order, pair.0, pair.1);
      EntriesCount(v, pair.0, pair.1);
      assert Times(1, multiset(Entries(v, pair.0))[pair.1]) == multiset(Entries(v, pair.0))[pair.1];
    }
  }

  lemma TimesOne(m: nat)
    ensures Times(m, 1) == m
  {
  }

  lemma ConservingListsOnce(order: seq<Key>, k: Key)
    requires Conserves(order)
    ensures Listed(order, k) == 1
  {
    var v := [Sorted(k, true, "x")];
    assert v[..0] == [] && Tagged(v) == [(k, "x")] && Entries(v, k) == ["x"];
    PrintedCount(v, order, k, "x");
    TimesOne(Listed(order, k));
    assert multiset(Flatten(Sections(v, order))) == multiset(Tagged(v));
  }

  /** An output order conserves all records exactly when it lists every section once. */
  lemma ConservesIff(order: seq<Key>)
    ensures Conserves(order) <==> OnceEach(order)
  {
    if OnceEach(order) {
      forall v
        ensures multiset(Flatten(Sections(v, order))) == multiset(Tagged(v))
      {
        OnceEachConserves(v, order);
      }
    }
    if Conserves(order) {
      forall k
        ensures Listed(order, k) == 1
      {
        ConservingListsOnce(order, k);
      }
    }
  }

  function Place(key: Key): nat {
    match key
    case Proposals => 0 case Warning => 1 case Features => 2 case Bugs => 3 case Others => 4
    case Documentation => 5 case Unknown => 6
  }

  lemma {:induction false} ListedUpTo(i: nat, key: Key)
    requires i <= |OUTPUT_ORDER|
    ensures Listed(OUTPUT_ORDER[..i], key) == if Place(key) < i then 1 else 0
  {
    if i > 0 {
      ListedUpTo(i - 1, key);
      assert OUTPUT_ORDER[..i][..i - 1] == OUTPUT_ORDER[..i - 1];
      assert OUTPUT_ORDER[i - 1] == key <==> Place(key) == i - 1;
    }
  }

  /** The tool's own order does. */
  lemma OutputOrderConserves()
    ensures Conserves(OUTPUT_ORDER)
  {
    forall k
      ensures Listed(OUTPUT_ORDER, k) == 1
    {
      ListedUpTo(|OUTPUT_ORDER|, k);
      assert OUTPUT_ORDER[..|OUTPUT_ORDER|] == OUTPUT_ORDER;
    }
    ConservesIff(OUTPUT_ORDER);
  }

  /** Where the kept records of a section are. */
  function Positions(v: seq<Sorted>, key: Key): (at: seq<nat>)
    ensures forall i :: 0 <= i < |at| ==> at[i] < |v|
    ensures forall i, j :: 0 <= i < j < |at| ==> at[i] < at[j]
  {
    if v == [] then []
    else
      var n := |v| - 1;
      if v[n].kept && v[n].key == key then Positions(v[..n], key) + [n] else Positions(v[..n], key)
  }

  /** A section holds the entries of its kept records, in the order of the records. */
  lemma {:induction false} EntriesAreInOrder(v: seq<Sorted>, key: Key)
    ensures |Positions(v, key)| == |Entries(v, key)|
    ensures forall i :: 0 <= i < |Entries(v, key)| ==>
              var r := v[Positions(v, key)[i]]; r.kept && r.key == key && Entries(v, key)[i] == r.entry
  {
    if v != [] {
      EntriesAreInOrder(v[..|v| - 1], key);
    }
  }

  /** And of all of them. */
  lemma {:induction false} PositionsAreAll(v: seq<Sorted>, key: Key, k: nat)
    requires k < |v| && v[k].kept && v[k].key == key
    ensures k in Positions(v, key)
  {
    var n := |v| - 1;
    if k < n {
      PositionsAreAll(v[..n], key, k);
    } else {
      assert Positions(v, key)[|Positions(v[..n], key)|] == n;
    }
  }
}
