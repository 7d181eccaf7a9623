/** What a file that passes the check looks like, and that the special parts are what their patterns say. */
module BoilerplateSoundness {
  import opened Wrappers
  import opened Text
  import opened Boilerplate
  import opened BoilerplateTheorems

  // ---------- the stripped header ----------

  /** Each YEAR of a line, from left to right, replaced by the next of the given words. */
  function Fill(line: string, words: seq<string>): string {
    if |line| < 4 || words == [] then line
    else if line[..4] == "YEAR" then words[0] + Fill(line[4..], words[1..])
    else [line[0]] + Fill(line[1..], words)
  }

  function Years(line: string): nat {
    if |line| < 4 then 0
    else if line[..4] == "YEAR" then 1 + Years(line[4..])
    else Years(line[1..])
  }

  lemma {:induction false} UntouchedUpToY(s: string, k: nat, now: nat)
    requires k <= |s| && |ReplaceAll(s, Dates(now), "YEAR")| == |s|
    requires forall i :: 0 <= i < k ==> ReplaceAll(s, Dates(now), "YEAR")[i] != 'Y'
    ensures ReplaceAll(s, Dates(now), "YEAR")[..k] == s[..k]
  {
    if k > 0 && |s| >= 4 {
      var t := ReplaceAll(s[1..], Dates(now), "YEAR");
      var all := ReplaceAll(s, Dates(now), "YEAR");
      assert all[0] != "YEAR"[0];
      assert !("YEAR" <= all);
      assert all == [s[0]] + t;
      assert forall i :: 0 <= i < k - 1 ==> t[i] == all[i + 1];
      UndatingKeepsLength(s[1..], now);
      UntouchedUpToY(s[1..], k - 1, now);
      assert ([s[0]] + t)[..k] == [s[0]] + t[..k - 1] && s[..k] == [s[0]] + s[1..][..k - 1];
    }
  }

  lemma {:induction false} UndatingKeepsLength(s: string, now: nat)
    ensures |ReplaceAll(s, Dates(now), "YEAR")| == |s|
  {
    if |s| >= 4 {
      UndatingKeepsLength(s[4..], now);
      UndatingKeepsLength(s[1..], now);
    }
  }

  /** In a line without YEAR, undating marks exactly the dates: filling them in again gives the line. A new YEAR
      cannot come about across the end of a replaced date. */
  lemma {:induction false} UndatingIsUndone(line: string, now: nat) returns (dates: seq<string>)
    requires !Has(line, Year())
    ensures forall d :: d in dates ==> IsDate(d, now)
    ensures var marked := ReplaceAll(line, Dates(now), "YEAR");
            |dates| == Years(marked) && Fill(marked, dates) == line
    ensures Has(line, Dates(now)) ==> dates != []
  {
    var marked := ReplaceAll(line, Dates(now), "YEAR");
    if |line| < 4 {
      dates := [];
    } else if IsDate(line[..4], now) {
      HasInParts(line[..4], line[4..], Year());
      assert line[..4] + line[4..] == line;
      var rest := UndatingIsUndone(line[4..], now);
      dates := [line[..4]] + rest;
      assert marked[..4] == "YEAR" && marked[4..] == ReplaceAll(line[4..], Dates(now), "YEAR");
    } else {
      dates := UndatingIsUndone(line[1..], now);
      var t := ReplaceAll(line[1..], Dates(now), "YEAR");
      UndatingKeepsLength(line[1..], now);
      assert marked == [line[0]] + t && marked[1..] == t;
      NoNewYear(line, now);
    }
  }

  lemma NoNewYear(line: string, now: nat)
    requires |line| >= 4
    ensures "YEAR" <= [line[0]] + ReplaceAll(line[1..], Dates(now), "YEAR") ==> line[..4] == "YEAR"
  {
    var t := ReplaceAll(line[1..], Dates(now), "YEAR");
    UndatingKeepsLength(line[1..], now);
    var marked := [line[0]] + t;
    if "YEAR" <= marked {
      assert marked[1] == t[0] == 'E' && marked[2] == t[1] == 'A' && marked[3] == t[2] == 'R';
      UntouchedUpToY(line[1..], 3, now);
      FirstFour(line, t);
    }
  }

  lemma FirstFour(line: string, t: string)
    requires |line| >= 4 && |t| >= 3 && t[..3] == line[1..][..3]
    ensures line[..4] == [line[0], t[0], t[1], t[2]]
  {
    assert forall i :: 0 <= i < 3 ==> t[..3][i] == line[1..][..3][i];
  }

  lemma {:induction false} UndatedDiffersOnce(v: seq<string>, now: nat) returns (m: nat)
    ensures |Undated(v, now)| == |v| && m <= |v|
    ensures forall i :: 0 <= i < |v| && i != m ==> Undated(v, now)[i] == v[i]
    ensures forall i :: 0 <= i < m ==> !Has(v[i], Dates(now))
    ensures m < |v| ==> Has(v[m], Dates(now)) && Undated(v, now)[m] == ReplaceAll(v[m], Dates(now), "YEAR")
  {
    if v == [] {
      m := 0;
    } else if Has(v[0], Dates(now)) {
      m := 0;
    } else {
      var k := UndatedDiffersOnce(v[1..], now);
      m := k + 1;
    }
  }

  /** The stripped header of a file that passes agrees with the reference on every line but at most one, and
      that one is the reference line with each YEAR replaced by a year from 2014 to now. There is one if the
      reference has a line with YEAR, and that is the line. */
  lemma PassingHeaderIsDatedReference(content: string, a: Analysis, now: nat) returns (m: nat, dates: seq<string>)
    requires a.ref.Some? && !a.generated && Passes(content, a, now)
    ensures var ref, lines := a.ref.value, Lines(ReplaceSpecials(content, a.extension).0);
            && |ref| <= |lines| && m <= |ref|
            && (forall i :: 0 <= i < |ref| && i != m ==> lines[i] == ref[i])
            && (m < |ref| ==>
                  && dates != [] && |dates| == Years(ref[m]) && lines[m] == Fill(ref[m], dates)
                  && forall d :: d in dates ==> IsDate(d, now))
            && forall i :: 0 <= i < |ref| && Has(ref[i], Year()) ==> i == m
  {
    var ref, lines := a.ref.value, Lines(ReplaceSpecials(content, a.extension).0);
    var header := lines[..|ref|];
    m := UndatedDiffersOnce(header, now);
    dates := [];
    if m < |ref| {
      assert header[m] in header;
      dates := UndatingIsUndone(header[m], now);
    }
    forall i | 0 <= i < |ref| && Has(ref[i], Year())
      ensures i == m
    {
      assert header[i] in header;
    }
  }

  // ---------- the special parts ----------

  /** The build-tag pattern: one or more build lines, each with its line end, and an empty line. */
  ghost predicate BuildLines(v: seq<string>) {
    forall i :: 0 <= i < |v| ==> Free(v[i], '\n') && "// +build" <= v[i]
  }

  function Block(v: seq<string>): string {
    if v == [] then "\n" else v[0] + "\n" + Block(v[1..])
  }

  lemma {:induction false} BlocksAreMatched(v: seq<string>, u: string)
    requires BuildLines(v)
    ensures BuildTail(Block(v) + u) == Some(|Block(v)|)
  {
    if v != [] {
      BlocksAreMatched(v[1..], u);
      BuildTailStep(v[0], Block(v[1..]) + u);
      CatLine(v[0], Block(v[1..]), u);
    } else {
      assert (Block(v) + u)[0] == '\n';
    }
  }

  lemma {:induction false} MatchesAreBlocks(t: string, u: string) returns (v: seq<string>)
    requires BuildTail(t + u) == Some(|t|)
    ensures BuildLines(v) && t == Block(v)
    decreases |t|
  {
    if t[0] == '\n' {
      assert (t + u)[0] == '\n';
      v := [];
    } else {
      var h, t1 := BuildTailFirst(t, u);
      var rest := MatchesAreBlocks(t1, u);
      v := [h] + rest;
    }
  }

  /** A text begins with a match of the build-tag pattern exactly when it begins with a block of build lines,
      and the match is that block. */
  lemma BuildMatchIff(t: string, u: string)
    ensures MatchAt(BuildTags, t + u) == Some(|t|) <==> exists v :: v != [] && BuildLines(v) && t == Block(v)
  {
    if MatchAt(BuildTags, t + u) == Some(|t|) {
      var v := MatchesAreBlocks(t, u);
      assert (t + u)[0] == t[0] == "// +build"[0] && Block([]) == "\n";
    }
    if v :| v != [] && BuildLines(v) && t == Block(v) {
      BlocksAreMatched(v, u);
      CatLine(v[0], Block(v[1..]), u);
      LineFacts(BuildTags, v[0], Block(v[1..]) + u);
    }
  }

  function Feeds(n: nat): string {
    if n == 0 then "" else "\n" + Feeds(n - 1)
  }

  lemma {:induction false} FeedsAreCounted(n: nat, u: string)
    requires u == "" || u[0] != '\n'
    ensures LineFeeds(Feeds(n) + u) == n == |Feeds(n)|
  {
    if n == 0 {
      assert Feeds(n) + u == u;
    } else {
      assert (Feeds(n) + u)[1..] == Feeds(n - 1) + u;
      FeedsAreCounted(n - 1, u);
    }
  }

  lemma {:induction false} CountedAreFeeds(t: string, u: string)
    requires LineFeeds(t + u) == |t|
    ensures t == Feeds(|t|) && (u == "" || u[0] != '\n')
  {
    if t == "" {
      assert t + u == u;
    } else {
      assert (t + u)[0] == t[0] && (t + u)[1..] == t[1..] + u;
      CountedAreFeeds(t[1..], u);
    }
  }

  ghost predicate ShebangLine(t: string, h: string, n: nat) {
    t == h + "\n" + Feeds(n) && Free(h, '\n') && "#!" <= h
  }

  /** A text begins with a match of the shebang pattern exactly when it begins with such a line and its line end,
      and the match is that with all empty lines after it. */
  lemma ShebangMatchIff(t: string, u: string)
    ensures MatchAt(Shebang, t + u) == Some(|t|)
       <==> (u == "" || u[0] != '\n') && exists h, n :: ShebangLine(t, h, n)
  {
    if MatchAt(Shebang, t + u) == Some(|t|) {
      var h, r := FirstLine(t + u);
      SplitInside(t, u, h, r, "");
      var t1 := t[|h| + 1..];
      LineFacts(Shebang, h, r);
      CountedAreFeeds(t1, u);
      assert ShebangLine(t, h, |t1|);
    }
    if (u == "" || u[0] != '\n') && exists h, n :: ShebangLine(t, h, n) {
      var h, n :| ShebangLine(t, h, n);
      CatLine(h, Feeds(n), u);
      LineFacts(Shebang, h, Feeds(n) + u);
      FeedsAreCounted(n, u);
    }
  }

  /** Search finds a match if there is one at the beginning of a line, and none further left. */
  lemma {:induction false} SearchIsLeftmost(p: Pattern, a: string, b: string)
    requires (a == "" || a[|a| - 1] == '\n') && MatchAt(p, b).Some?
    ensures Search(p, a + b).Some? && Search(p, a + b).value.start <= |a|
    decreases |a|
  {
    if a == "" {
      assert a + b == b;
    } else {
      var h, r := FirstLine(a) by { FreeNeedsEnd(a); }
      CatLine(h, r, b);
      EndOfRest(h, r);
      SearchIsLeftmost(p, r, b);
      SearchStep(p, h, r + b);
    }
  }

  lemma EndOfRest(h: string, r: string)
    ensures r != "" ==> (h + "\n" + r)[|h + "\n" + r| - 1] == r[|r| - 1]
  {
  }

  lemma FreeNeedsEnd(a: string)
    requires a != "" && a[|a| - 1] == '\n'
    ensures |Head(a, '\n')| < |a|
  {
    var h := Head(a, '\n');
    assert !Free(a, '\n');
    assert |h| == |a| ==> h == a;
  }

  lemma SearchStep(p: Pattern, h: string, r: string)
    requires Free(h, '\n') && Search(p, r).Some?
    ensures Search(p, h + "\n" + r).Some?
    ensures Search(p, h + "\n" + r).value.start <= |h| + 1 + Search(p, r).value.start
  {
    LineFacts(p, h, r);
    SearchSecond(p, h + "\n" + r);
  }

  lemma SearchSecond(p: Pattern, s: string)
    requires |Head(s, '\n')| < |s| && Search(p, s[LineLength(s)..]).Some?
    ensures Search(p, s).Some? && Search(p, s).value.start <= LineLength(s) + Search(p, s[LineLength(s)..]).value.start
  {
  }
}
