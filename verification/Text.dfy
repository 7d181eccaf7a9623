/** Texts: splitting and joining at a separator, lines, and replacing four-character words. */
module Text {
  // ---------- splitting and joining at a separator ----------

  ghost predicate Free(s: string, sep: char) {
    forall i :: 0 <= i < |s| ==> s[i] != sep
  }

  /** The part of s before its first separator. */
  function Head(s: string, sep: char): (h: string)
    ensures h <= s && Free(h, sep)
    ensures |h| < |s| ==> s[|h|] == sep
  {
    if s == "" || s[0] == sep then "" else [s[0]] + Head(s[1..], sep)
  }

  /** Always at least one segment; n separators give n + 1 segments. */
  function Split(s: string, sep: char): (v: seq<string>)
    ensures |v| >= 1
    ensures forall i :: 0 <= i < |v| ==> Free(v[i], sep)
    decreases |s|
  {
    var h := Head(s, sep);
    if |h| == |s| then [s] else [h] + Split(s[|h| + 1..], sep)
  }

  function Join(v: seq<string>, sep: char): string {
    if |v| == 0 then "" else if |v| == 1 then v[0] else v[0] + [sep] + Join(v[1..], sep)
  }

  lemma {:induction false} HeadOfJoined(a: string, b: string, sep: char)
    requires Free(a, sep)
    ensures Head(a + [sep] + b, sep) == a
    ensures Head(a, sep) == a
  {
    if a == "" {
    } else {
      HeadOfJoined(a[1..], b, sep);
      assert (a + [sep] + b)[1..] == a[1..] + [sep] + b;
      assert Free(a[1..], sep);
    }
  }

  lemma SplitStep(s: string, sep: char) returns (h: string, rest: string)
    requires |Head(s, sep)| < |s|
    ensures s == h + [sep] + rest && Free(h, sep) && |rest| < |s| && Split(s, sep) == [h] + Split(rest, sep)
  {
    h := Head(s, sep);
    rest := s[|h| + 1..];
  }

  lemma JoinedOn(h: string, v: seq<string>, sep: char)
    requires v != []
    ensures Join([h] + v, sep) == h + [sep] + Join(v, sep)
  {
    assert ([h] + v)[1..] == v;
  }

  lemma {:induction false} JoinOfSplit(s: string, sep: char)
    ensures Join(Split(s, sep), sep) == s
    decreases |s|
  {
    if |Head(s, sep)| < |s| {
      var h, rest := SplitStep(s, sep);
      JoinOfSplit(rest, sep);
      JoinedOn(h, Split(rest, sep), sep);
    }
  }

  lemma FreeCount(s: string, sep: char)
    ensures Free(s, sep) <==> multiset(s)[sep] == 0
  {
    assert forall i :: 0 <= i < |s| ==> s[i] in multiset(s);
    assert sep in multiset(s) <==> sep in s;
  }

  /** One segment more than separators. */
  lemma {:induction false} SegmentsCount(s: string, sep: char)
    ensures |Split(s, sep)| == multiset(s)[sep] + 1
    decreases |s|
  {
    if |Head(s, sep)| == |s| {
      FreeCount(s, sep);
    } else {
      var h, rest := SplitStep(s, sep);
      SegmentsCount(rest, sep);
      FreeCount(h, sep);
      assert multiset(h + [sep] + rest) == multiset(h) + multiset{sep} + multiset(rest);
    }
  }

  lemma {:induction false} SplitOfJoined(a: string, b: string, sep: char)
    ensures Split(a + [sep] + b, sep) == Split(a, sep) + Split(b, sep)
    decreases |a|
  {
    var h := Head(a, sep);
    var whole := a + [sep] + b;
    if |h| == |a| {
      HeadOfJoined(a, b, sep);
      assert whole[|a| + 1..] == b;
    } else {
      var rest := a[|h| + 1..];
      assert whole == h + [sep] + (rest + [sep] + b);
      HeadOfJoined(h, rest + [sep] + b, sep);
      assert whole[|h| + 1..] == rest + [sep] + b;
      SplitOfJoined(rest, b, sep);
      assert [h] + (Split(rest, sep) + Split(b, sep)) == ([h] + Split(rest, sep)) + Split(b, sep);
    }
  }

  lemma {:induction false} JoinOfConcat(v: seq<string>, w: seq<string>, sep: char)
    requires |v| > 0 && |w| > 0
    ensures Join(v + w, sep) == Join(v, sep) + [sep] + Join(w, sep)
  {
    if |v| == 1 {
      assert (v + w)[1..] == w;
    } else {
      assert (v + w)[1..] == v[1..] + w;
      JoinOfConcat(v[1..], w, sep);
    }
  }

  /** Split is injective: a text is determined by its segments. */
  lemma SplitInjective(a: string, b: string, sep: char)
    requires Split(a, sep) == Split(b, sep)
    ensures a == b
  {
    JoinOfSplit(a, sep);
    JoinOfSplit(b, sep);
  }

  // ---------- lines ----------

  /** The lines of a text whose only line ends are line feeds; a final line end starts no further line. */
  function Lines(s: string): (v: seq<string>)
    ensures forall i :: 0 <= i < |v| ==> Free(v[i], '\n')
    decreases |s|
  {
    if s == "" then []
    else
      var h := Head(s, '\n');
      if |h| == |s| then [s] else [h] + Lines(s[|h| + 1..])
  }

  lemma LinesOfOne(line: string, rest: string)
    requires Free(line, '\n')
    ensures Lines(line + "\n" + rest) == [line] + Lines(rest)
  {
    HeadOfJoined(line, rest, '\n');
    assert (line + "\n" + rest)[|line| + 1..] == rest;
  }

  lemma JoinedHeader(v: seq<string>, rest: string)
    requires |v| > 1
    ensures Join(v, '\n') + "\n" + rest == v[0] + "\n" + (Join(v[1..], '\n') + "\n" + rest)
  {
  }

  lemma Uncons<T>(v: seq<T>, w: seq<T>)
    requires v != []
    ensures [v[0]] + (v[1..] + w) == v + w
  {
  }

  lemma {:induction false} LinesOfHeader(v: seq<string>, rest: string)
    requires v != [] && forall i :: 0 <= i < |v| ==> Free(v[i], '\n')
    ensures Lines(Join(v, '\n') + "\n" + rest) == v + Lines(rest)
  {
    if |v| == 1 {
      LinesOfOne(v[0], rest);
    } else {
      var tail := Join(v[1..], '\n') + "\n" + rest;
      assert Lines(tail) == v[1..] + Lines(rest) by {
        LinesOfHeader(v[1..], rest);
      }
      LinesOfOne(v[0], tail);
      JoinedHeader(v, rest);
      Uncons(v, Lines(rest));
    }
  }

  // ---------- containing ----------

  predicate Contains(s: string, p: string) {
    p <= s || (s != "" && Contains(s[1..], p))
  }

  /** A word is in a text exactly when the text is something, the word and something. */
  lemma {:induction false} ContainsIff(s: string, p: string)
    ensures Contains(s, p) <==> exists a, b :: s == a + p + b
  {
    if p <= s {
      assert s == "" + p + s[|p|..];
    } else if s != "" {
      ContainsIff(s[1..], p);
      if Contains(s[1..], p) {
        var a, b :| s[1..] == a + p + b;
        assert s == ([s[0]] + a) + p + b;
      }
      if a, b :| s == a + p + b {
        assert a != "";
        assert s[1..] == a[1..] + p + b;
      }
    }
  }

  /** A word without line feeds is in a text exactly when it is before or after a line feed of it. */
  lemma {:induction false} ContainsAcross(a: string, b: string, p: string)
    requires p != "" && Free(p, '\n')
    ensures Contains(a + "\n" + b, p) <==> Contains(a, p) || Contains(b, p)
  {
    var s := a + "\n" + b;
    assert |a| < |p| <= |s| ==> s[..|p|][|a|] == '\n';
    assert p <= s <==> p <= a;
    if a == "" {
      assert s[1..] == b;
    } else {
      assert s[1..] == a[1..] + "\n" + b;
      ContainsAcross(a[1..], b, p);
    }
  }

  // ---------- words of four characters ----------

  /** Which words of four characters are looked for. */
  type Hit = string -> bool

  predicate Has(s: string, hit: Hit) {
    |s| >= 4 && (hit(s[..4]) || Has(s[1..], hit))
  }

  /** Where the leftmost hit is. */
  function First(s: string, hit: Hit): (i: nat)
    requires Has(s, hit)
    ensures i + 4 <= |s| && hit(s[i..i + 4])
  {
    if hit(s[..4]) then 0
    else
      var k := First(s[1..], hit);
      assert s[1..][k..k + 4] == s[k + 1..k + 5];
      k + 1
  }

  /** Replace the leftmost hit. */
  function ReplaceFirst(s: string, hit: Hit, with: string): string {
    if |s| < 4 then s
    else if hit(s[..4]) then with + s[4..]
    else [s[0]] + ReplaceFirst(s[1..], hit, with)
  }

  /** Replace hits from left to right; what was replaced is not looked at again. */
  function ReplaceAll(s: string, hit: Hit, with: string): string {
    if |s| < 4 then s
    else if hit(s[..4]) then with + ReplaceAll(s[4..], hit, with)
    else [s[0]] + ReplaceAll(s[1..], hit, with)
  }

  /** The first three characters, as far as there are any. */
  function Three(s: string): string {
    if |s| < 3 then s else s[..3]
  }

  lemma {:induction false} HasInParts(a: string, b: string, hit: Hit)
    ensures Has(a, hit) ==> Has(a + b, hit)
    ensures Has(b, hit) ==> Has(a + b, hit)
  {
    if a == "" {
      assert a + b == b;
    } else {
      assert (a + b)[1..] == a[1..] + b;
      if |a| >= 4 {
        assert (a + b)[..4] == a[..4];
      }
      HasInParts(a[1..], b, hit);
    }
  }

  /** A hit in a + b starts in a or in b. */
  lemma {:induction false} HasSplits(a: string, b: string, hit: Hit)
    ensures Has(a + b, hit) <==> Has(a + Three(b), hit) || Has(b, hit)
  {
    if a == "" {
      assert a + b == b && a + Three(b) == Three(b);
    } else {
      HasSplits(a[1..], b, hit);
      assert (a + b)[1..] == a[1..] + b && (a + Three(b))[1..] == a[1..] + Three(b);
      if |a + b| >= 4 {
        assert (a + b)[..4] == (a + Three(b))[..4];
      }
      if Has(b, hit) {
        HasInParts(a, b, hit);
      }
    }
  }

  /** Nothing starts before the leftmost hit. */
  lemma {:induction false} FirstIsLeftmost(s: string, hit: Hit)
    requires Has(s, hit)
    ensures var i := First(s, hit);
            s == s[..i] + s[i..i + 4] + s[i + 4..] && !Has(s[..i + 3], hit)
  {
    if !hit(s[..4]) {
      FirstIsLeftmost(s[1..], hit);
      var k := First(s[1..], hit);
      assert s[..k + 4][1..] == s[1..][..k + 3];
      assert s[..k + 4][..4] == s[..4];
    }
  }

  /** Nothing starts in a, and w after it is a hit. */
  predicate Leads(a: string, w: string, hit: Hit) {
    |w| == 4 && hit(w) && !Has(a + w[..3], hit)
  }

  lemma LeadsOn(a: string, w: string, b: string, hit: Hit)
    requires Leads(a, w, hit) && a != ""
    ensures var s := a + w + b;
            |s| >= 4 && !hit(s[..4]) && s[0] == a[0] && s[1..] == a[1..] + w + b && Leads(a[1..], w, hit)
  {
    var s := a + w + b;
    assert s[..4] == (a + w[..3])[..4];
    assert (a + w[..3])[1..] == a[1..] + w[..3];
  }

  /** Then w is the first hit, and the one that is replaced. */
  lemma {:induction false} FirstAfter(a: string, w: string, b: string, hit: Hit)
    requires Leads(a, w, hit)
    ensures Has(a + w + b, hit) && First(a + w + b, hit) == |a|
  {
    if a == "" {
      assert (a + w + b)[..4] == w;
    } else {
      LeadsOn(a, w, b, hit);
      FirstAfter(a[1..], w, b, hit);
    }
  }

  lemma {:induction false} ReplaceFirstAfter(a: string, w: string, b: string, hit: Hit, with: string)
    requires Leads(a, w, hit)
    ensures ReplaceFirst(a + w + b, hit, with) == a + with + b
  {
    if a == "" {
      assert (a + w + b)[..4] == w && (a + w + b)[4..] == b;
    } else {
      LeadsOn(a, w, b, hit);
      ReplaceFirstAfter(a[1..], w, b, hit, with);
    }
  }

  lemma {:induction false} ReplaceAllAfter(a: string, w: string, b: string, hit: Hit, with: string)
    requires Leads(a, w, hit)
    ensures ReplaceAll(a + w + b, hit, with) == a + with + ReplaceAll(b, hit, with)
  {
    if a == "" {
      assert (a + w + b)[..4] == w && (a + w + b)[4..] == b;
    } else {
      LeadsOn(a, w, b, hit);
      ReplaceAllAfter(a[1..], w, b, hit, with);
    }
  }

  lemma HasWord(a: string, w: string, b: string, hit: Hit)
    requires |w| == 4 && hit(w)
    ensures Has(a + w + b, hit)
  {
    assert (w + b)[..4] == w;
    HasInParts(a, w + b, hit);
    assert a + (w + b) == a + w + b;
  }

  lemma Leftmost(s: string, hit: Hit) returns (a: string, w: string, b: string)
    requires Has(s, hit)
    ensures s == a + w + b && Leads(a, w, hit) && a == s[..First(s, hit)] && b == s[First(s, hit) + 4..]
  {
    FirstIsLeftmost(s, hit);
    var i := First(s, hit);
    a, w, b := s[..i], s[i..i + 4], s[i + 4..];
    assert a + w[..3] == s[..i + 3];
  }

  lemma LeadsComesFirst(a: string, w: string, b: string, hit: Hit, c: string, x: string, d: string)
    requires a + w + b == c + x + d && Leads(a, w, hit) && |x| == 4 && hit(x)
    ensures |a| <= |c|
  {
    if |c| < |a| {
      var s, k := a + w + b, |a| + 3;
      assert s[..k] == a + w[..3];
      assert s[..k] == c + x + s[|c| + 4..k];
      HasWord(c, x, s[|c| + 4..k], hit);
    }
  }

  lemma {:induction false} NothingToReplace(s: string, hit: Hit, with: string)
    requires !Has(s, hit)
    ensures ReplaceAll(s, hit, with) == s && ReplaceFirst(s, hit, with) == s
  {
    if |s| >= 4 {
      NothingToReplace(s[1..], hit, with);
    }
  }
}
