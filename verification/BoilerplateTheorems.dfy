/** The theorems about licence headers: repair makes the check pass, the check is sound, repair conserves. */
module BoilerplateTheorems {
  import opened Wrappers
  import opened Text
  import opened Boilerplate
  import opened BoilerplateRepair

  // ---------- the special part ----------

  function Prefix(p: Pattern): string {
    match p case BuildTags => "// +build" case Shebang => "#!"
  }

  lemma NoPrefixNoMatch(p: Pattern, s: string)
    requires !(Prefix(p) <= s)
    ensures MatchAt(p, s) == None
  {
  }

  lemma Parts(a: string, b: string, c: string)
    ensures var s := a + b + c;
            s[..|a|] == a && s[|a|..|a| + |b|] == b && s[|a| + |b|..] == c
  {
  }

  lemma CatLine(h: string, a: string, b: string)
    ensures (h + "\n" + a) + b == h + "\n" + (a + b)
  {
  }

  /** A line end inside t splits t, and every text that begins with t, at the same place. */
  lemma SplitInside(t: string, u: string, h: string, r: string, v: string)
    requires t + u == h + "\n" + r && |h| < |t|
    ensures var t1 := t[|h| + 1..];
            t == h + "\n" + t1 && r == t1 + u && t + v == h + "\n" + (t1 + v)
  {
    var t1 := t[|h| + 1..];
    var s := t + u;
    assert t == s[..|t|] == (h + "\n" + r)[..|t|];
    assert t[..|h|] == h && t[|h|] == '\n';
    assert t == t[..|h|] + [t[|h|]] + t1;
    assert r == s[|h| + 1..] == t1 + u;
    CatLine(h, t1, v);
  }

  /** A text that begins with the line h. */
  lemma LineFacts(p: Pattern, h: string, r: string)
    requires Free(h, '\n')
    ensures var s := h + "\n" + r;
            && Head(s, '\n') == h && |h| < |s| && LineLength(s) == |h| + 1 && s[|h| + 1..] == r
            && (Prefix(p) <= s <==> Prefix(p) <= h)
  {
    HeadOfJoined(h, r, '\n');
    PrefixInLine(p, h, r);
  }

  lemma PrefixFacts(p: Pattern)
    ensures DigitFree(Prefix(p)) && Free(Prefix(p), '\n') && Prefix(p) != ""
  {
  }

  lemma PrefixInLine(p: Pattern, h: string, r: string)
    ensures Prefix(p) <= h + "\n" + r <==> Prefix(p) <= h
  {
    var s := h + "\n" + r;
    assert forall i :: 0 <= i < |Prefix(p)| ==> Prefix(p)[i] != '\n';
    assert |h| < |Prefix(p)| <= |s| ==> s[..|Prefix(p)|][|h|] == '\n';
  }

  lemma FirstLine(s: string) returns (h: string, r: string)
    requires |Head(s, '\n')| < |s|
    ensures h == Head(s, '\n') && s == h + "\n" + r && r == s[LineLength(s)..]
  {
    h := Head(s, '\n');
    r := s[|h| + 1..];
  }

  lemma Rejoin(s: string, n: nat)
    requires n <= |s|
    ensures s[..n] + s[n..] == s && "" + s[..n] + s[n..] == s
  {
  }

  lemma Reassociate(a: string, b: string, c: string, d: string)
    ensures a + (b + c + d) == (a + b) + c + d
  {
  }

  lemma LineOnTop(s: string, pre: string, t: string, post: string)
    requires |Head(s, '\n')| < |s| && s[LineLength(s)..] == pre + t + post
    requires pre == "" || pre[|pre| - 1] == '\n'
    ensures var line := s[..LineLength(s)];
            s == (line + pre) + t + post && (line + pre)[|line + pre| - 1] == '\n'
  {
    var line := s[..LineLength(s)];
    assert s == line + s[LineLength(s)..];
    Reassociate(line, pre, t, post);
  }

  lemma SearchNext(p: Pattern, s: string)
    requires MatchAt(p, s) == None && Search(p, s).Some?
    ensures |Head(s, '\n')| < |s|
    ensures Search(p, s[LineLength(s)..]).Some?
    ensures Search(p, s).value.start == LineLength(s) + Search(p, s[LineLength(s)..]).value.start
    ensures Search(p, s).value.length == Search(p, s[LineLength(s)..]).value.length
  {
  }

  /** The match that Search reports: s is in three parts, the middle one at the beginning of a line and matched there. */
  lemma {:induction false} SearchFinds(p: Pattern, s: string) returns (pre: string, t: string, post: string)
    requires Search(p, s).Some?
    ensures s == pre + t + post && |pre| == Search(p, s).value.start && |t| == Search(p, s).value.length
    ensures MatchAt(p, t + post) == Some(|t|)
    ensures pre == "" || pre[|pre| - 1] == '\n'
    decreases |s|
  {
    if MatchAt(p, s).Some? {
      var n := MatchAt(p, s).value;
      pre, t, post := "", s[..n], s[n..];
      Rejoin(s, n);
    } else {
      SearchNext(p, s);
      var pre1;
      pre1, t, post := SearchFinds(p, s[LineLength(s)..]);
      pre := s[..LineLength(s)] + pre1;
      LineOnTop(s, pre1, t, post);
    }
  }

  lemma {:induction false} BuildTailEndsLine(s: string)
    requires BuildTail(s).Some?
    ensures s[BuildTail(s).value - 1] == '\n'
    decreases |s|
  {
    if s[0] != '\n' {
      var k := LineLength(s);
      BuildTailEndsLine(s[k..]);
      assert s[k..][BuildTail(s[k..]).value - 1] == s[BuildTail(s).value - 1];
    }
  }

  lemma MatchEndsLine(p: Pattern, t: string, u: string)
    requires MatchAt(p, t + u) == Some(|t|)
    ensures t != "" && t[|t| - 1] == '\n'
  {
    var s := t + u;
    assert t[|t| - 1] == s[|t| - 1];
    if p == BuildTags {
      BuildTailEndsLine(s);
    } else {
      var k := LineLength(s);
      assert |t| > k ==> s[k..][|t| - k - 1] == s[|t| - 1];
    }
  }

  lemma BuildTailStep(h: string, r: string)
    requires Free(h, '\n') && h != ""
    ensures BuildTail(h + "\n" + r)
         == if !("// +build" <= h) then None
            else match BuildTail(r) { case None => None case Some(n) => Some(|h| + 1 + n) }
  {
    LineFacts(BuildTags, h, r);
    assert (h + "\n" + r)[0] == h[0];
  }

  lemma BuildTailFirst(t: string, u: string) returns (h: string, t1: string)
    requires BuildTail(t + u) == Some(|t|) && t[0] != '\n'
    ensures t == h + "\n" + t1 && Free(h, '\n') && h != "" && "// +build" <= h
    ensures BuildTail(t1 + u) == Some(|t1|)
  {
    var r;
    assert (t + u)[0] == t[0];
    h, r := FirstLine(t + u);
    BuildTailStep(h, r);
    SplitInside(t, u, h, r, "");
    t1 := t[|h| + 1..];
  }

  lemma BuildTailGrows(h: string, t: string, v: string)
    requires Free(h, '\n') && h != "" && "// +build" <= h && BuildTail(t + v) == Some(|t|)
    ensures BuildTail(h + "\n" + t + v) == Some(|h| + 1 + |t|)
  {
    BuildTailStep(h, t + v);
    CatLine(h, t, v);
  }

  /** The part matched by BuildTail decides the match, whatever follows it. */
  lemma {:induction false} BuildTailKept(t: string, u: string, v: string)
    requires BuildTail(t + u) == Some(|t|)
    ensures BuildTail(t + v) == Some(|t|)
    decreases |t|
  {
    if t[0] == '\n' {
      assert (t + u)[0] == '\n' && (t + v)[0] == '\n';
    } else {
      var h, t1 := BuildTailFirst(t, u);
      BuildTailKept(t1, u, v);
      BuildTailGrows(h, t1, v);
    }
  }

  lemma BuildMatchKept(t: string, u: string, v: string)
    requires MatchAt(BuildTags, t + u) == Some(|t|)
    ensures MatchAt(BuildTags, t + v) == Some(|t|)
  {
    BuildTailKept(t, u, v);
    var h, r := FirstLine(t + u);
    assert (t + u)[0] == "// +build"[0];
    SplitInside(t, u, h, r, v);
    LineFacts(BuildTags, h, t[|h| + 1..] + u);
    LineFacts(BuildTags, h, t[|h| + 1..] + v);
  }

  lemma {:induction false} LineFeedsKept(t: string, u: string, v: string)
    requires LineFeeds(t + u) == |t| && (v == "" || v[0] != '\n')
    ensures LineFeeds(t + v) == |t|
  {
    if t == "" {
      assert t + v == v;
    } else {
      assert (t + u)[0] == t[0] && (t + v)[0] == t[0];
      assert (t + u)[1..] == t[1..] + u && (t + v)[1..] == t[1..] + v;
      LineFeedsKept(t[1..], u, v);
    }
  }

  lemma ShebangMatchKept(t: string, u: string, v: string)
    requires MatchAt(Shebang, t + u) == Some(|t|) && (v == "" || v[0] != '\n')
    ensures MatchAt(Shebang, t + v) == Some(|t|)
  {
    var h, r := FirstLine(t + u);
    SplitInside(t, u, h, r, v);
    var t1 := t[|h| + 1..];
    LineFacts(Shebang, h, t1 + u);
    LineFacts(Shebang, h, t1 + v);
    LineFeedsKept(t1, u, v);
  }

  /** A match is found again in front of any text that does not begin with a line end. */
  lemma MatchKept(p: Pattern, t: string, u: string, v: string)
    requires MatchAt(p, t + u) == Some(|t|) && v != "" && v[0] != '\n'
    ensures MatchAt(p, t + v) == Some(|t|)
  {
    match p {
      case BuildTags => BuildMatchKept(t, u, v);
      case Shebang => ShebangMatchKept(t, u, v);
    }
  }

  /** Above a text, lines that do not start like a match are passed over. */
  lemma {:induction false} SearchPassesOver(p: Pattern, v: seq<string>, rest: string)
    requires v != [] && forall i :: 0 <= i < |v| ==> Free(v[i], '\n') && !(Prefix(p) <= v[i])
    requires Search(p, rest) == None
    ensures Search(p, Join(v, '\n') + "\n" + rest) == None
  {
    var tail := if |v| == 1 then rest else Join(v[1..], '\n') + "\n" + rest;
    var s := Join(v, '\n') + "\n" + rest;
    assert s == v[0] + "\n" + tail by {
      if |v| > 1 {
        assert (v[0] + "\n" + Join(v[1..], '\n')) + "\n" + rest == v[0] + "\n" + (Join(v[1..], '\n') + "\n" + rest);
      }
    }
    if |v| > 1 {
      SearchPassesOver(p, v[1..], rest);
    }
    LineFacts(p, v[0], tail);
    NoPrefixNoMatch(p, s);
  }

  // ---------- clean references ----------

  /** A reference with a first line, of real lines none of which looks like a special part or marks a
      generated file. */
  ghost predicate Clean(ref: seq<string>, extension: string) {
    && ref != [] && ref[0] != ""
    && (forall i :: 0 <= i < |ref| ==> Free(ref[i], '\n'))
    && (PatternOf(extension).Some? ==> forall i :: 0 <= i < |ref| ==> !(Prefix(PatternOf(extension).value) <= ref[i]))
    && !Contains(Join(ref, '\n'), "DO NOT EDIT")
  }

  lemma DatingKeepsStarts(q: string, line: string, now: nat)
    requires DigitFree(q) && !(q <= line)
    ensures !(q <= ReplaceFirst(line, Year(), YearText(now)))
  {
    if Has(line, Year()) {
      var pre, post := FindYear(line);
      var y := YearText(now);
      ReplaceFirstAfter(pre, "YEAR", post, Year(), y);
      StartsBeforeDigit(q, pre, y + post);
      PrefixGrows(q, pre, "YEAR" + post);
      assert pre + (y + post) == pre + y + post;
      assert line == pre + ("YEAR" + post);
    } else {
      NothingToReplace(line, Year(), YearText(now));
    }
  }

  lemma PrefixGrows(q: string, pre: string, after: string)
    ensures q <= pre ==> q <= pre + after
  {
  }

  lemma StartsBeforeDigit(q: string, pre: string, after: string)
    requires DigitFree(q) && after != "" && '0' <= after[0] <= '9'
    ensures q <= pre + after ==> q <= pre
  {
    var s := pre + after;
    assert |pre| < |q| <= |s| ==> s[..|q|][|pre|] == after[0];
  }

  lemma {:induction false} DatedStaysClean(p: Pattern, ref: seq<string>, now: nat)
    requires forall i :: 0 <= i < |ref| ==> !(Prefix(p) <= ref[i])
    ensures |Dated(ref, now)| == |ref| && forall i :: 0 <= i < |ref| ==> !(Prefix(p) <= Dated(ref, now)[i])
  {
    if ref != [] {
      PrefixFacts(p);
      DatingKeepsStarts(Prefix(p), ref[0], now);
      DatedStaysClean(p, ref[1..], now);
      if !Has(ref[0], Year()) {
        assert Dated(ref, now)[1..] == Dated(ref[1..], now);
      }
    }
  }

  lemma DatedBegins(ref: seq<string>, extension: string, now: nat)
    requires Clean(ref, extension)
    ensures var h := Join(Dated(ref, now), '\n'); h != "" && h[0] != '\n'
  {
    DatedLinesAreFree(ref, now);
    SameLength(ref[0], now);
    var d := Dated(ref, now);
    assert d[0] != "" && Free(d[0], '\n');
    assert Join(d, '\n')[0] == d[0][0];
  }

  // ---------- repair, then check ----------

  lemma RepairedForm(content: string, ref: seq<string>, extension: string, now: nat)
    ensures var (rest, special) := ReplaceSpecials(content, extension);
            var tail := ReplaceFirst(Join(ref, '\n'), Year(), YearText(now)) + "\n" + rest;
            Repaired(content, ref, extension, now) == match special { case None => tail case Some(t) => t + tail }
  {
  }

  /** The check strips from a repaired file just the special part that the repair put on top. */
  lemma SpecialIsStripped(content: string, ref: seq<string>, extension: string, now: nat)
    requires Clean(ref, extension)
    ensures var (rest, special) := ReplaceSpecials(content, extension);
            ReplaceSpecials(Repaired(content, ref, extension, now), extension)
            == (Join(Dated(ref, now), '\n') + "\n" + rest, special)
  {
    RepairedForm(content, ref, extension, now);
    DatedJoin(ref, now);
    var (rest, special) := ReplaceSpecials(content, extension);
    if PatternOf(extension).Some? {
      var p := PatternOf(extension).value;
      if special.None? {
        DatedStaysClean(p, ref, now);
        DatedLinesAreFree(ref, now);
        SearchPassesOver(p, Dated(ref, now), rest);
      } else {
        var pre, t, post := SearchFinds(p, content);
        PartsOfMatch(p, content, pre, t, post);
        DatedBegins(ref, extension, now);
        SpecialOnTop(p, t, post, Join(Dated(ref, now), '\n') + "\n" + rest);
      }
    }
  }

  lemma PartsOfMatch(p: Pattern, content: string, pre: string, t: string, post: string)
    requires content == pre + t + post && Search(p, content) == Some(Span(|pre|, |t|))
    ensures MatchAndDelete(content, p) == (pre + post, Some(t))
  {
    Parts(pre, t, post);
  }

  lemma SpecialOnTop(p: Pattern, t: string, u: string, tail: string)
    requires MatchAt(p, t + u) == Some(|t|) && tail != "" && tail[0] != '\n'
    ensures MatchAndDelete(t + tail, p) == (tail, Some(t))
  {
    MatchKept(p, t, u, tail);
    var s := t + tail;
    assert s[..0] + s[0 + |t|..] == tail && s[0..0 + |t|] == t;
  }

  /** The lines of a repaired file begin with the dated reference. */
  lemma HeaderIsDatedReference(content: string, ref: seq<string>, extension: string, now: nat)
    requires Clean(ref, extension)
    ensures var lines := Lines(ReplaceSpecials(Repaired(content, ref, extension, now), extension).0);
            |ref| <= |lines| && lines[..|ref|] == Dated(ref, now)
  {
    SpecialIsStripped(content, ref, extension, now);
    DatedLinesAreFree(ref, now);
    LinesOfHeader(Dated(ref, now), ReplaceSpecials(content, extension).0);
  }

  const MARK := "DO NOT EDIT"

  lemma DatedHeaderIsUnmarked(ref: seq<string>, now: nat)
    requires ref != [] && !Contains(Join(ref, '\n'), MARK)
    ensures !Contains(ReplaceFirst(Join(ref, '\n'), Year(), YearText(now)), MARK)
  {
    var header := Join(ref, '\n');
    if Has(header, Year()) {
      var pre, post := FindYear(header);
      ReplaceFirstAfter(pre, "YEAR", post, Year(), YearText(now));
      ContainsWall(pre, YearText(now), post, MARK);
      ContainsInParts(pre, "YEAR", MARK);
      ContainsInParts(pre + "YEAR", post, MARK);
    } else {
      NothingToReplace(header, Year(), YearText(now));
    }
  }

  lemma ContainsInThree(a: string, b: string, c: string, p: string)
    requires p != "" && Free(p, '\n')
    ensures Contains(a + "\n" + (b + "\n" + c), p) <==> Contains(a, p) || Contains(b, p) || Contains(c, p)
  {
    ContainsAcross(a, b + "\n" + c, p);
    ContainsAcross(b, c, p);
  }

  /** A line moved to the front, and a header without the mark put after it. */
  lemma MarkMovesLine(pre: string, line: string, post: string, header: string)
    requires pre == "" || pre[|pre| - 1] == '\n'
    requires !Contains(header, MARK)
    ensures Contains(line + "\n" + (header + "\n" + (pre + post)), MARK) <==> Contains(pre + (line + "\n" + post), MARK)
  {
    ContainsInThree(line, header, pre + post, MARK);
    if pre == "" {
      assert pre + (line + "\n" + post) == line + "\n" + post && pre + post == post;
      ContainsAcross(line, post, MARK);
    } else {
      var u := pre[..|pre| - 1];
      assert pre == u + "\n";
      ContainsInThree(u, line, post, MARK);
      ContainsAcross(u, post, MARK);
    }
  }

  lemma MarkMoves(pre: string, t: string, post: string, header: string)
    requires pre == "" || pre[|pre| - 1] == '\n'
    requires t != "" && t[|t| - 1] == '\n' && !Contains(header, MARK)
    ensures Contains(t + (header + "\n" + (pre + post)), MARK) <==> Contains(pre + t + post, MARK)
  {
    var line := t[..|t| - 1];
    assert t == line + "\n";
    MarkMovesLine(pre, line, post, header);
    assert pre + t + post == pre + (line + "\n" + post);
  }

  /** A repaired file is marked as generated exactly when the original was. */
  lemma MarkIsKept(content: string, ref: seq<string>, extension: string, now: nat)
    requires ref != [] && !Contains(Join(ref, '\n'), MARK)
    ensures Contains(Repaired(content, ref, extension, now), MARK) <==> Contains(content, MARK)
  {
    var header := ReplaceFirst(Join(ref, '\n'), Year(), YearText(now));
    DatedHeaderIsUnmarked(ref, now);
    RepairedForm(content, ref, extension, now);
    var (rest, special) := ReplaceSpecials(content, extension);
    if special.None? {
      ContainsAcross(header, content, MARK);
    } else {
      var p := PatternOf(extension).value;
      var pre, t, post := SearchFinds(p, content);
      PartsOfMatch(p, content, pre, t, post);
      MatchEndsLine(p, t, post);
      MarkMoves(pre, t, post, header);
    }
  }

  lemma RepairedHeader(content: string, a: Analysis, now: nat)
    requires 2014 <= now && a.ref.Some? && Clean(a.ref.value, a.extension)
    ensures Passes(Repaired(content, a.ref.value, a.extension, now), a, now) <==> Repairable(a.ref.value, a.generated, now)
  {
    HeaderIsDatedReference(content, a.ref.value, a.extension, now);
    HeaderRepair(a.ref.value, a.generated, now);
  }

  /** Whatever the file was like, after the repair it is analysed as before, and it passes the check exactly when
      its reference is repairable: for a generated file, has no YEAR; else, has no date before the line with the
      YEAR, none beginning before the YEAR on that line once it is dated, and neither date nor YEAR after it. */
  lemma RepairPassesIff(name: FileName, content: string, refs: map<string, seq<string>>, a: Analysis, now: nat)
    requires 2014 <= now <= 9999
    requires AnalyzeFile(name, content, refs) == Ok(a) && a.ref.Some? && Clean(a.ref.value, a.extension)
    ensures var repaired := Repaired(content, a.ref.value, a.extension, now);
            && AnalyzeFile(name, repaired, refs) == Ok(a)
            && (Passes(repaired, a, now) <==> Repairable(a.ref.value, a.generated, now))
  {
    MarkIsKept(content, a.ref.value, a.extension, now);
    RepairedHeader(content, a, now);
  }

  // ---------- which references are repairable ----------

  /** A reference with one YEAR, no date up to it or after it on its line, and no digit right before it. */
  lemma UsualReferenceIsRepairable(before: seq<string>, pre: string, post: string, after: seq<string>, now: nat)
    requires 2014 <= now
    requires forall l :: l in before ==> !Has(l, Year()) && !Has(l, Dates(now))
    requires forall l :: l in after ==> !Has(l, Year())
    requires Leads(pre, "YEAR", Year()) && !Has(post, Year()) && !Has(post, Dates(now)) && !Has(pre, Dates(now))
    requires pre == "" || !('0' <= pre[|pre| - 1] <= '9')
    ensures RepairableLines(before + [pre + "YEAR" + post] + after, now)
  {
    var ref := before + [pre + "YEAR" + post] + after;
    if before == [] {
      FirstAfter(pre, "YEAR", post, Year());
      assert ref[0] == pre + "YEAR" + post && ref[1..] == after;
      assert ref[0][..|pre|] == pre && ref[0][|pre| + 4..] == post;
      NoDateRunsOver(pre, YearText(now)[..3], now);
    } else {
      UsualReferenceIsRepairable(before[1..], pre, post, after, now);
      assert ref[1..] == before[1..] + [pre + "YEAR" + post] + after;
    }
  }

  lemma {:induction false} NoDateRunsOver(pre: string, d: string, now: nat)
    requires !Has(pre, Dates(now)) && |d| == 3 && (pre == "" || !('0' <= pre[|pre| - 1] <= '9'))
    ensures !Has(pre + d, Dates(now))
  {
    if pre != "" {
      var s := pre + d;
      assert s[1..] == pre[1..] + d;
      NoDateRunsOver(pre[1..], d, now);
      if |pre| >= 4 {
        assert s[..4] == pre[..4];
      } else {
        assert s[..4][|pre| - 1] == pre[|pre| - 1];
      }
    }
  }

  lemma DigitsMakeADate()
    ensures !RepairableLines(["20YEAR"], 2024) && Has("20YEAR", Year())
  {
    var line := "20YEAR";
    assert line[..4] == "20YE" && line[1..][..4] == "0YEA" && line[1..][1..][..4] == "YEAR";
    assert Has(line[1..][1..], Year());
    assert Has(line[1..], Year());
    assert First(line, Year()) == 2;
    assert line[..2] + YearText(2024)[..3] == "20202";
    assert YearText(2020) == "2020" && "20202"[..4] == "2020";
    assert IsDate("2020", 2024);
    assert Has("20202", Dates(2024));
  }

  lemma DigitsReferenceIsClean(extension: string)
    ensures Clean(["20YEAR"], extension)
  {
    assert Join(["20YEAR"], '\n') == "20YEAR";
    NotContained("20YEAR", MARK);
  }

  lemma {:induction false} NotContained(s: string, p: string)
    requires |s| < |p|
    ensures !Contains(s, p)
  {
    if s != "" {
      NotContained(s[1..], p);
    }
  }

  /** A digit before the YEAR can make a date with it: in 2024 "20YEAR" becomes "202024", whose first date is 2020.
      Whatever the file, its repair by this clean reference fails the check. */
  lemma DigitsBeforeYearBreakTheRepair(content: string, extension: string, generated: bool)
    ensures var ref := ["20YEAR"];
            && Clean(ref, extension)
            && !Passes(Repaired(content, ref, extension, 2024), Analysis(Some(ref), extension, generated), 2024)
  {
    var ref := ["20YEAR"];
    DigitsReferenceIsClean(extension);
    DigitsMakeADate();
    assert ref[0] in ref;
    RepairedHeader(content, Analysis(Some(ref), extension, generated), 2024);
  }

  // ---------- conservation ----------

  lemma MovedToFront(t: string, rest: string, i: nat)
    requires i <= |rest|
    ensures multiset(t + rest) == multiset(rest[..i] + t + rest[i..])
  {
    assert rest == rest[..i] + rest[i..];
  }

  /** The repaired file is the special part, the dated header, a line end and the rest: it is longer than the
      original by the header and one character, nothing of the original is lost, and cutting the header out again
      gives the original with its special part moved to the front. */
  lemma RepairConserves(content: string, ref: seq<string>, extension: string, now: nat)
    ensures var (rest, special) := ReplaceSpecials(content, extension);
            var repaired, top := Repaired(content, ref, extension, now), if special.Some? then special.value else "";
            var n := |Join(ref, '\n')| + 1;
            && |repaired| == |content| + n
            && repaired[..|top|] + repaired[|top| + n..] == top + rest
            && repaired[|top|..|top| + n] == ReplaceFirst(Join(ref, '\n'), Year(), YearText(now)) + "\n"
            && multiset(top + rest) == multiset(content)
  {
    RepairedIsLonger(content, ref, extension, now);
    SameLength(Join(ref, '\n'), now);
    SpecialsSplit(content, extension);
    var (rest, special) := ReplaceSpecials(content, extension);
    var top := if special.Some? then special.value else "";
    var header := ReplaceFirst(Join(ref, '\n'), Year(), YearText(now)) + "\n";
    assert Repaired(content, ref, extension, now) == top + header + rest;
    Parts(top, header, rest);
    if special.Some? {
      var i :| 0 <= i <= |rest| && content == rest[..i] + special.value + rest[i..];
      MovedToFront(special.value, rest, i);
    } else {
      assert "" + rest == content;
    }
  }
}
