/** Which files may have what above their header: scripts a shebang, Go files their build tags, all others nothing. */
module BoilerplateSpecials {
  import opened Wrappers
  import opened Text
  import opened Boilerplate
  import opened BoilerplateTheorems
  import opened BoilerplateSoundness

  /** content is in three parts, the middle one a special part that begins a line. */
  ghost predicate Around(p: Pattern, content: string, pre: string, t: string, post: string) {
    && content == pre + t + post && (pre == "" || pre[|pre| - 1] == '\n')
    && Special(p, t, post)
  }

  /** A shebang line with all the empty lines after it, or a block of build lines with the empty line after it. */
  ghost predicate Special(p: Pattern, t: string, post: string) {
    match p
    case Shebang => (post == "" || post[0] != '\n') && exists h, n :: ShebangLine(t, h, n)
    case BuildTags => exists v :: v != [] && BuildLines(v) && t == Block(v)
  }

  /** And none begins further left. */
  ghost predicate FirstAround(p: Pattern, content: string, pre: string, t: string, post: string) {
    && Around(p, content, pre, t, post)
    && forall pre1, t1, post1 :: Around(p, content, pre1, t1, post1) ==> |pre| <= |pre1|
  }

  lemma SpecialIsMatched(p: Pattern, t: string, post: string)
    ensures Special(p, t, post) <==> MatchAt(p, t + post) == Some(|t|)
  {
    match p {
      case Shebang => ShebangMatchIff(t, post);
      case BuildTags => BuildMatchIff(t, post);
    }
  }

  lemma Regroup(a: string, b: string, c: string)
    ensures a + b + c == a + (b + c)
  {
  }

  lemma AroundIsFound(p: Pattern, content: string, pre: string, t: string, post: string)
    requires Around(p, content, pre, t, post)
    ensures Search(p, content).Some? && Search(p, content).value.start <= |pre|
  {
    SpecialIsMatched(p, t, post);
    Regroup(pre, t, post);
    SearchIsLeftmost(p, pre, t + post);
  }

  lemma FoundIsAround(p: Pattern, content: string) returns (pre: string, t: string, post: string)
    requires Search(p, content).Some?
    ensures FirstAround(p, content, pre, t, post) && MatchAndDelete(content, p) == (pre + post, Some(t))
  {
    pre, t, post := SearchFinds(p, content);
    SpecialIsMatched(p, t, post);
    PartsOfMatch(p, content, pre, t, post);
    forall pre1, t1, post1 | Around(p, content, pre1, t1, post1)
      ensures |pre| <= |pre1|
    {
      AroundIsFound(p, content, pre1, t1, post1);
    }
  }

  lemma FirstIsOne(p: Pattern, content: string, pre: string, t: string, post: string, pre1: string, t1: string, post1: string)
    requires FirstAround(p, content, pre, t, post) && FirstAround(p, content, pre1, t1, post1)
    ensures pre == pre1 && t == t1 && post == post1
  {
    SpecialIsMatched(p, t, post);
    SpecialIsMatched(p, t1, post1);
    Parts(pre, t, post);
    Parts(pre1, t1, post1);
    assert t + post == content[|pre|..] == t1 + post1;
  }

  /** The leftmost special part is taken out, if there is one. */
  lemma DeletesFirst(p: Pattern, content: string)
    ensures forall pre, t, post :: FirstAround(p, content, pre, t, post) ==> MatchAndDelete(content, p) == (pre + post, Some(t))
    ensures (forall pre, t, post :: !Around(p, content, pre, t, post)) ==> MatchAndDelete(content, p) == (content, None)
    ensures MatchAndDelete(content, p).1.Some? ==> exists pre, t, post :: FirstAround(p, content, pre, t, post)
  {
    if Search(p, content).Some? {
      var pre, t, post := FoundIsAround(p, content);
      forall pre1, t1, post1 | FirstAround(p, content, pre1, t1, post1)
        ensures MatchAndDelete(content, p) == (pre1 + post1, Some(t1))
      {
        FirstIsOne(p, content, pre, t, post, pre1, t1, post1);
      }
    } else {
      forall pre, t, post
        ensures !Around(p, content, pre, t, post)
      {
        if Around(p, content, pre, t, post) {
          AroundIsFound(p, content, pre, t, post);
        }
      }
    }
  }

  // ---------- which files have which ----------

  /** From a script the leftmost shebang is taken. */
  lemma ScriptsHaveShebangs(content: string)
    ensures forall pre, t, post :: FirstAround(Shebang, content, pre, t, post) ==> ReplaceSpecials(content, "sh") == (pre + post, Some(t))
    ensures (forall pre, t, post :: !Around(Shebang, content, pre, t, post)) ==> ReplaceSpecials(content, "sh") == (content, None)
  {
    DeletesFirst(Shebang, content);
  }

  /** From a Go file, generated or not, the leftmost block of build tags. */
  lemma GoFilesHaveBuildTags(content: string, extension: string)
    requires extension == "go" || extension == "generatego"
    ensures forall pre, t, post :: FirstAround(BuildTags, content, pre, t, post) ==>
              ReplaceSpecials(content, extension) == (pre + post, Some(t))
    ensures (forall pre, t, post :: !Around(BuildTags, content, pre, t, post)) ==>
              ReplaceSpecials(content, extension) == (content, None)
  {
    DeletesFirst(BuildTags, content);
  }

  /** From any other file nothing, and the header is put on top of it. */
  lemma OthersHaveNothing(content: string, extension: string, ref: seq<string>, now: nat)
    requires extension !in {"sh", "go", "generatego"}
    ensures ReplaceSpecials(content, extension) == (content, None)
    ensures Repaired(content, ref, extension, now) == ReplaceFirst(Join(ref, '\n'), Year(), YearText(now)) + "\n" + content
  {
  }

  lemma OnTop(p: Pattern, t: string, body: string)
    requires Special(p, t, body)
    ensures FirstAround(p, t + body, "", t, body)
  {
    assert "" + t + body == t + body;
  }

  /** The shebang of a script stays on top of it, and the header comes next. */
  lemma ShebangStaysOnTop(h: string, n: nat, body: string, ref: seq<string>, now: nat)
    requires Free(h, '\n') && (body == "" || body[0] != '\n')
    ensures var t := "#!" + h + "\n" + Feeds(n);
            Repaired(t + body, ref, "sh", now) == t + ReplaceFirst(Join(ref, '\n'), Year(), YearText(now)) + "\n" + body
  {
    var t := "#!" + h + "\n" + Feeds(n);
    assert ShebangLine(t, "#!" + h, n);
    OnTop(Shebang, t, body);
    ScriptsHaveShebangs(t + body);
    assert "" + body == body;
  }

  /** And so do the build tags of a Go file. */
  lemma BuildTagsStayOnTop(v: seq<string>, body: string, extension: string, ref: seq<string>, now: nat)
    requires extension == "go" || extension == "generatego"
    requires v != [] && forall i :: 0 <= i < |v| ==> Free(v[i], '\n') && "// +build" <= v[i]
    ensures Repaired(Block(v) + body, ref, extension, now)
         == Block(v) + ReplaceFirst(Join(ref, '\n'), Year(), YearText(now)) + "\n" + body
  {
    OnTop(BuildTags, Block(v), body);
    GoFilesHaveBuildTags(Block(v) + body, extension);
    assert "" + body == body;
  }

  /** The check of a file with a special part on top is that of what comes below, as of a file that may have none. */
  lemma CheckLooksBelow(p: Pattern, t: string, body: string, extension: string, ref: seq<string>, generated: bool, now: nat)
    requires Special(p, t, body)
    requires if p == Shebang then extension == "sh" else extension == "go" || extension == "generatego"
    ensures Passes(t + body, Analysis(Some(ref), extension, generated), now) <==> Passes(body, Analysis(Some(ref), "", generated), now)
  {
    OnTop(p, t, body);
    DeletesFirst(p, t + body);
    assert "" + body == body;
  }

  // ---------- which reference a file has ----------

  /** A file is generated exactly if "DO NOT EDIT" stands in it anywhere and it is not on the skip list; then it has the
      reference of generated Go files, else that of its extension, and without an extension that of its base name, if any. */
  lemma ReferenceIsChosen(name: FileName, content: string, refs: map<string, seq<string>>)
    ensures var a, generated := AnalyzeFile(name, content, refs), !name.skipped && exists x, y :: content == x + "DO NOT EDIT" + y;
            && (generated ==> a == if "generatego" in refs then Ok(Analysis(Some(refs["generatego"]), "generatego", true))
                                   else Err(NoReference))
            && (!generated && name.extension != "" ==>
                  a == if name.extension in refs then Ok(Analysis(Some(refs[name.extension]), name.extension, false))
                       else Err(NoReference))
            && (!generated && name.extension == "" ==>
                  a == Ok(Analysis(if name.base in refs then Some(refs[name.base]) else None, "", false)))
  {
    ContainsIff(content, "DO NOT EDIT");
  }

  // ---------- years ----------

  function Number(s: string): int {
    if s == "" then 0 else Number(s[..|s| - 1]) * 10 + (s[|s| - 1] as int - '0' as int)
  }

  lemma NumberOfMore(s: string, c: char)
    ensures Number(s + [c]) == Number(s) * 10 + (c as int - 48)
  {
    assert (s + [c])[..|s|] == s;
  }

  lemma NumberOfFour(s: string)
    requires |s| == 4
    ensures Number(s) == (((s[0] as int - 48) * 10 + (s[1] as int - 48)) * 10 + (s[2] as int - 48)) * 10 + (s[3] as int - 48)
  {
    NumberOfMore(s[..0], s[0]);
    NumberOfMore(s[..1], s[1]);
    NumberOfMore(s[..2], s[2]);
    NumberOfMore(s[..3], s[3]);
    assert s[..0] + [s[0]] == s[..1] && s[..1] + [s[1]] == s[..2] && s[..2] + [s[2]] == s[..3] && s[..3] + [s[3]] == s;
  }

  lemma FourDigits(y: nat)
    requires y < 10000
    ensures y / 1000 < 10
    ensures y == (((y / 1000) * 10 + (y / 100) % 10) * 10 + (y / 10) % 10) * 10 + y % 10
  {
    assert (y / 10) / 10 == y / 100 && (y / 100) / 10 == y / 1000;
  }

  /** A year is written in decimal. */
  lemma YearIsDecimal(y: nat)
    requires y < 10000
    ensures Number(YearText(y)) == y
  {
    NumberOfFour(YearText(y));
    FourDigits(y);
    DigitIs(y);
    DigitIs(y / 10);
    DigitIs(y / 100);
    DigitIs(y / 1000);
  }

  lemma DigitIs(d: nat)
    ensures Digit(d) as int - '0' as int == d % 10
  {
  }

  /** The dates of the check are the years from 2014 to the current one. */
  lemma DatesAre(w: string, now: nat)
    requires now < 10000
    ensures IsDate(w, now) <==> |w| == 4 && (forall i :: 0 <= i < 4 ==> '0' <= w[i] <= '9') && 2014 <= Number(w) <= now
  {
    if IsDate(w, now) {
      var y :| 2014 <= y <= now && w == YearText(y);
      YearIsDecimal(y);
    }
    if |w| == 4 && (forall i :: 0 <= i < 4 ==> '0' <= w[i] <= '9') && 2014 <= Number(w) <= now {
      YearIsDecimal(Number(w));
      SameNumber(w, YearText(Number(w)));
    }
  }

  lemma {:induction false} SameNumber(s: string, t: string)
    requires |s| == |t| && Number(s) == Number(t)
    requires forall i :: 0 <= i < |s| ==> '0' <= s[i] <= '9' && '0' <= t[i] <= '9'
    ensures s == t
  {
    if s != "" {
      var n := |s| - 1;
      SameNumber(s[..n], t[..n]);
      assert s == s[..n] + [s[n]] && t == t[..n] + [t[n]];
    }
  }
}
