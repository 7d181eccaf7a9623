/** When a repaired file passes the check. */
module BoilerplateRepair {
  import opened Text
  import opened Boilerplate

  // ---------- digits keep words apart ----------

  predicate Digits(d: string) {
    d != "" && forall i :: 0 <= i < |d| ==> '0' <= d[i] <= '9'
  }

  predicate DigitFree(p: string) {
    forall i :: 0 <= i < |p| ==> !('0' <= p[i] <= '9')
  }

  lemma {:induction false} ContainsInParts(a: string, b: string, p: string)
    ensures Contains(a, p) || Contains(b, p) ==> Contains(a + b, p)
  {
    if a == "" {
      assert a + b == b;
      if p == "" {
      }
    } else {
      assert (a + b)[1..] == a[1..] + b;
      ContainsInParts(a[1..], b, p);
    }
  }

  lemma {:induction false} ContainsWall(a: string, d: string, b: string, p: string)
    requires Digits(d) && DigitFree(p) && p != ""
    ensures Contains(a + d + b, p) ==> Contains(a, p) || Contains(b, p)
    decreases |a| + |d|
  {
    var s := a + d + b;
    if a != "" {
      assert s[1..] == a[1..] + d + b;
      assert |a| < |p| <= |s| ==> s[..|p|][|a|] == d[0];
      assert p <= s ==> p <= a;
      ContainsWall(a[1..], d, b, p);
    } else {
      assert s == d + b && s[0] == d[0];
      if |d| > 1 {
        assert s[1..] == "" + d[1..] + b;
        ContainsWall("", d[1..], b, p);
      } else {
        assert s[1..] == b;
      }
    }
  }

  lemma {:induction false} YearWall(a: string, d: string, b: string)
    requires Digits(d)
    ensures Has(a + d + b, Year()) <==> Has(a, Year()) || Has(b, Year())
    decreases |a| + |d|
  {
    var s := a + d + b;
    if a != "" {
      assert s[1..] == a[1..] + d + b;
      assert |a| < 4 <= |s| ==> s[..4][|a|] == d[0];
      assert 4 <= |a| ==> s[..4] == a[..4];
      YearWall(a[1..], d, b);
    } else {
      assert s == d + b && s[0] == d[0];
      assert 4 <= |s| ==> s[..4][0] == d[0];
      if |d| > 1 {
        assert s[1..] == "" + d[1..] + b;
        YearWall("", d[1..], b);
      } else {
        assert s[1..] == b;
      }
    }
  }

  // ---------- one line ----------

  lemma FindYearAt(line: string) returns (pre: string, post: string)
    requires Has(line, Year())
    ensures line == pre + "YEAR" + post && Leads(pre, "YEAR", Year())
    ensures pre == line[..First(line, Year())] && post == line[First(line, Year()) + 4..]
  {
    var w;
    pre, w, post := Leftmost(line, Year());
  }

  lemma FindYear(line: string) returns (pre: string, post: string)
    requires Has(line, Year())
    ensures line == pre + "YEAR" + post && Leads(pre, "YEAR", Year())
  {
    pre, post := FindYearAt(line);
  }

  /** No date begins before the YEAR once that is dated, and there is neither a date nor a YEAR after it. */
  predicate RepairableLine(line: string, now: nat)
    requires Has(line, Year())
  {
    var i := First(line, Year());
    && !Has(line[..i] + YearText(now)[..3], Dates(now))
    && !Has(line[i + 4..], Dates(now)) && !Has(line[i + 4..], Year())
  }

  lemma UndatingLeavesYear(s: string, now: nat)
    requires Has(s, Dates(now))
    ensures Has(ReplaceAll(s, Dates(now), "YEAR"), Year())
  {
    var a, w, b := Leftmost(s, Dates(now));
    ReplaceAllAfter(a, w, b, Dates(now), "YEAR");
    HasWord(a, "YEAR", ReplaceAll(b, Dates(now), "YEAR"), Year());
  }

  /** A dated line passes as its reference line exactly when that was repairable. */
  lemma LineRepair(line: string, now: nat)
    requires 2014 <= now && Has(line, Year())
    ensures var dated := ReplaceFirst(line, Year(), YearText(now));
            && Has(dated, Dates(now))
            && (!Has(dated, Year()) && ReplaceAll(dated, Dates(now), "YEAR") == line <==> RepairableLine(line, now))
  {
    var pre, post := FindYearAt(line);
    var y := YearText(now);
    ReplaceFirstAfter(pre, "YEAR", post, Year(), y);
    assert IsDate(y, now);
    HasWord(pre, y, post, Dates(now));
    if RepairableLine(line, now) {
      RepairableIsEnough(pre, post, now);
    }
    if !Has(pre + y + post, Year()) && ReplaceAll(pre + y + post, Dates(now), "YEAR") == line {
      RepairableIsNeeded(pre, post, now);
    }
  }

  lemma RepairableIsEnough(pre: string, post: string, now: nat)
    requires 2014 <= now && Leads(pre, "YEAR", Year())
    requires !Has(pre + YearText(now)[..3], Dates(now)) && !Has(post, Dates(now)) && !Has(post, Year())
    ensures var dated := pre + YearText(now) + post;
            !Has(dated, Year()) && ReplaceAll(dated, Dates(now), "YEAR") == pre + "YEAR" + post
  {
    var y := YearText(now);
    assert IsDate(y, now);
    HasInParts(pre, "YEAR"[..3], Year());
    YearWall(pre, y, post);
    ReplaceAllAfter(pre, y, post, Dates(now), "YEAR");
    NothingToReplace(post, Dates(now), "YEAR");
  }

  lemma RepairableIsNeeded(pre: string, post: string, now: nat)
    requires 2014 <= now && Leads(pre, "YEAR", Year())
    requires var dated := pre + YearText(now) + post;
             !Has(dated, Year()) && Has(dated, Dates(now)) && ReplaceAll(dated, Dates(now), "YEAR") == pre + "YEAR" + post
    ensures !Has(pre + YearText(now)[..3], Dates(now)) && !Has(post, Dates(now)) && !Has(post, Year())
  {
    var y := YearText(now);
    assert IsDate(y, now);
    YearWall(pre, y, post);
    var a, w, b := Leftmost(pre + y + post, Dates(now));
    LeadsComesFirst(a, w, b, Dates(now), pre, y, post);
    var rest := ReplaceAll(b, Dates(now), "YEAR");
    ReplaceAllAfter(a, w, b, Dates(now), "YEAR");
    LeadsComesFirst(pre, "YEAR", post, Year(), a, "YEAR", rest);
    SameParts(pre, y, post, a, w, b);
    SameParts(pre, "YEAR", post, a, "YEAR", rest);
    if Has(post, Dates(now)) {
      UndatingLeavesYear(post, now);
    }
  }

  lemma SameParts(a: string, w: string, b: string, c: string, x: string, d: string)
    requires a + w + b == c + x + d && |a| == |c| && |w| == |x|
    ensures a == c && w == x && b == d
  {
    var s := a + w + b;
    assert a == s[..|a|] && w == s[|a|..|a| + |w|] && b == s[|a| + |w|..];
    assert c == s[..|a|] && x == s[|a|..|a| + |w|] && d == s[|a| + |w|..];
  }

  // ---------- the lines of the reference ----------

  /** The reference with its first YEAR replaced by the current year. */
  function Dated(ref: seq<string>, now: nat): seq<string> {
    if ref == [] then []
    else if Has(ref[0], Year()) then [ReplaceFirst(ref[0], Year(), YearText(now))] + ref[1..]
    else [ref[0]] + Dated(ref[1..], now)
  }

  /** No date before the line with the YEAR, that line repairable, and no YEAR after it. */
  predicate RepairableLines(ref: seq<string>, now: nat) {
    ref == []
    || (if Has(ref[0], Year()) then RepairableLine(ref[0], now) && forall l :: l in ref[1..] ==> !Has(l, Year())
        else !Has(ref[0], Dates(now)) && RepairableLines(ref[1..], now))
  }

  predicate Repairable(ref: seq<string>, generated: bool, now: nat) {
    if generated then forall l :: l in ref ==> !Has(l, Year()) else RepairableLines(ref, now)
  }

  lemma {:induction false} LinesRepair(ref: seq<string>, now: nat)
    requires 2014 <= now
    ensures (forall l :: l in Dated(ref, now) ==> !Has(l, Year())) && Undated(Dated(ref, now), now) == ref
       <==> RepairableLines(ref, now)
  {
    if ref == [] {
    } else if Has(ref[0], Year()) {
      LineRepair(ref[0], now);
      var dated := ReplaceFirst(ref[0], Year(), YearText(now));
      assert Dated(ref, now)[0] == dated && Dated(ref, now)[1..] == ref[1..];
      assert forall l :: l in Dated(ref, now) <==> l == dated || l in ref[1..];
      assert [ReplaceAll(dated, Dates(now), "YEAR")] + ref[1..] == ref <==> ReplaceAll(dated, Dates(now), "YEAR") == ref[0];
    } else {
      LinesRepair(ref[1..], now);
      assert Dated(ref, now)[0] == ref[0] && Dated(ref, now)[1..] == Dated(ref[1..], now);
      if Has(ref[0], Dates(now)) {
        UndatingLeavesYear(ref[0], now);
        assert Undated(Dated(ref, now), now)[0] == ReplaceAll(ref[0], Dates(now), "YEAR");
      } else {
        assert Undated(Dated(ref, now), now) == [ref[0]] + Undated(Dated(ref[1..], now), now);
        assert Undated(Dated(ref, now), now)[1..] == Undated(Dated(ref[1..], now), now);
      }
    }
  }

  lemma {:induction false} UndatedReference(ref: seq<string>, now: nat)
    requires forall l :: l in ref ==> !Has(l, Year())
    ensures Dated(ref, now) == ref
  {
    if ref != [] {
      UndatedReference(ref[1..], now);
    }
  }

  /** The dated reference passes as a header exactly when the reference is repairable. */
  lemma HeaderRepair(ref: seq<string>, generated: bool, now: nat)
    requires 2014 <= now
    ensures HeaderPasses(Dated(ref, now), ref, generated, now) <==> Repairable(ref, generated, now)
  {
    if generated {
      if Repairable(ref, generated, now) {
        UndatedReference(ref, now);
      }
    } else {
      LinesRepair(ref, now);
    }
  }

  // ---------- dating the joined header ----------

  lemma {:induction false} YearBeyond(a: string, b: string, d: string)
    requires !Has(a, Year())
    ensures ReplaceFirst(a + "\n" + b, Year(), d) == a + "\n" + ReplaceFirst(b, Year(), d)
  {
    var s := a + "\n" + b;
    assert |a| < 4 <= |s| ==> s[..4][|a|] == '\n';
    assert 4 <= |a| ==> s[..4] == a[..4];
    if a == "" {
      assert s[1..] == b;
    } else {
      assert s[1..] == a[1..] + "\n" + b;
      YearBeyond(a[1..], b, d);
    }
  }

  lemma YearAcross(a: string, b: string, d: string)
    ensures ReplaceFirst(a + "\n" + b, Year(), d)
         == if Has(a, Year()) then ReplaceFirst(a, Year(), d) + "\n" + b else a + "\n" + ReplaceFirst(b, Year(), d)
  {
    if Has(a, Year()) {
      var pre, post := FindYear(a);
      ReplaceFirstAfter(pre, "YEAR", post, Year(), d);
      ReplaceFirstAfter(pre, "YEAR", post + "\n" + b, Year(), d);
      assert a + "\n" + b == pre + "YEAR" + (post + "\n" + b);
    } else {
      YearBeyond(a, b, d);
    }
  }

  lemma {:induction false} DatedJoin(ref: seq<string>, now: nat)
    requires ref != []
    ensures Join(Dated(ref, now), '\n') == ReplaceFirst(Join(ref, '\n'), Year(), YearText(now))
    ensures |Dated(ref, now)| == |ref|
  {
    var y := YearText(now);
    if |ref| == 1 {
      if !Has(ref[0], Year()) {
        NothingToReplace(ref[0], Year(), y);
        assert Dated(ref, now) == [ref[0]];
      }
    } else {
      YearAcross(ref[0], Join(ref[1..], '\n'), y);
      if Has(ref[0], Year()) {
        assert Dated(ref, now)[1..] == ref[1..];
      } else {
        DatedJoin(ref[1..], now);
        assert Dated(ref, now)[1..] == Dated(ref[1..], now);
      }
    }
  }

  lemma {:induction false} DatedLinesAreFree(ref: seq<string>, now: nat)
    requires forall i :: 0 <= i < |ref| ==> Free(ref[i], '\n')
    ensures |Dated(ref, now)| == |ref| && forall i :: 0 <= i < |ref| ==> Free(Dated(ref, now)[i], '\n')
  {
    if ref != [] {
      if Has(ref[0], Year()) {
        var pre, post := FindYear(ref[0]);
        ReplaceFirstAfter(pre, "YEAR", post, Year(), YearText(now));
        assert forall i :: 0 <= i < |post| ==> post[i] == ref[0][|pre| + 4 + i];
        assert forall i :: 0 <= i < |pre| ==> pre[i] == ref[0][i];
      } else {
        DatedLinesAreFree(ref[1..], now);
      }
    }
  }
}
