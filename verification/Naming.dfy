/** How OpenStackNodeImageRelease objects get their names from a release tag, an image
    name and a node-image version. */
module Naming {
  import opened Wrappers
  import opened Text

  // ---------- release tags ----------

  datatype TagError = InvalidTag

  predicate ValidTag(tag: string) {
    var n := |Split(tag, '-')|;
    n == 5 || n == 7
  }

  function CutVersion(tag: string): Result<string, TagError> {
    var v := Split(tag, '-');
    if |v| != 5 && |v| != 7 then Err(InvalidTag) else Ok(v[0] + "-" + v[1] + "-" + v[2] + "-" + v[3])
  }

  /** The cut is refused exactly for tags without 5 or 7 segments; otherwise what is left has exactly
      the first four segments of the tag, and the tag is that prefix, a dash and the other segments. */
  lemma CutKeepsFourSegments(tag: string)
    ensures CutVersion(tag).Ok? <==> ValidTag(tag)
    ensures ValidTag(tag) ==>
              var prefix := CutVersion(tag).value;
              && Split(prefix, '-') == Split(tag, '-')[..4]
              && tag == prefix + "-" + Join(Split(tag, '-')[4..], '-')
  {
    var v := Split(tag, '-');
    if ValidTag(tag) {
      var a, b, c, d := v[0], v[1], v[2], v[3];
      forall i | 0 <= i < 4
        ensures Split(v[i], '-') == [v[i]]
      {
        HeadOfJoined(v[i], "", '-');
      }
      var prefix := CutVersion(tag).value;
      SplitOfJoined(a, b, '-');
      SplitOfJoined(a + "-" + b, c, '-');
      SplitOfJoined(a + "-" + b + "-" + c, d, '-');
      assert prefix == a + "-" + b + "-" + c + "-" + d;
      assert Split(prefix, '-') == v[..4];
      JoinOfSplit(prefix, '-');
      JoinOfSplit(tag, '-');
      JoinOfConcat(v[..4], v[4..], '-');
      assert v == v[..4] + v[4..];
    }
  }

  /** These are the tags with four or six dashes. */
  lemma DashesDecide(tag: string)
    ensures CutVersion(tag).Ok? <==> multiset(tag)['-'] == 4 || multiset(tag)['-'] == 6
    ensures CutVersion(tag).Ok? ==> multiset(CutVersion(tag).value)['-'] == 3 && CutVersion(tag).value + "-" <= tag
  {
    SegmentsCount(tag, '-');
    CutKeepsFourSegments(tag);
    if ValidTag(tag) {
      SegmentsCount(CutVersion(tag).value, '-');
    }
  }

  // ---------- derived names ----------

  function DerivedName(prefix: string, image: string, version: string): string {
    prefix + "-" + image + "-" + version
  }

  function Segments(s: string): nat {
    |Split(s, '-')|
  }

  /** Equal names of two node images always come from equal stack prefixes. They come from the same image
      and version exactly when the two versions have as many dashes as each other. */
  lemma EqualNames(p: string, q: string, i: string, j: string, v: string, w: string)
    requires Segments(p) == Segments(q) == 4
    requires DerivedName(p, i, v) == DerivedName(q, j, w)
    ensures p == q
    ensures i == j && v == w <==> Segments(v) == Segments(w)
  {
    DerivedSegments(p, i, v);
    DerivedSegments(q, j, w);
    var n := Split(DerivedName(p, i, v), '-');
    assert Split(p, '-') == n[..4] == Split(q, '-');
    SplitInjective(p, q, '-');
    if Segments(v) == Segments(w) {
      assert Split(i, '-') == n[4..|n| - Segments(v)] == Split(j, '-');
      assert Split(v, '-') == n[|n| - Segments(v)..] == Split(w, '-');
      SplitInjective(i, j, '-');
      SplitInjective(v, w, '-');
    }
  }

  lemma DerivedSegments(p: string, i: string, v: string)
    ensures Split(DerivedName(p, i, v), '-') == Split(p, '-') + Split(i, '-') + Split(v, '-')
  {
    SplitOfJoined(p, i, '-');
    SplitOfJoined(p + "-" + i, v, '-');
  }

  /** Two valid tags give node images of the same image name and version the same object name exactly when
      the tags agree on their first four segments: releases that differ only in version share objects,
      other stacks never do. */
  lemma SharedExactlyWithinAStack(s: string, t: string, image: string, version: string)
    requires ValidTag(s) && ValidTag(t)
    ensures DerivedName(CutVersion(s).value, image, version) == DerivedName(CutVersion(t).value, image, version)
       <==> Split(s, '-')[..4] == Split(t, '-')[..4]
  {
    CutKeepsFourSegments(s);
    CutKeepsFourSegments(t);
    var p, q := CutVersion(s).value, CutVersion(t).value;
    if DerivedName(p, image, version) == DerivedName(q, image, version) {
      EqualNames(p, q, image, image, version, version);
    }
    if Split(p, '-') == Split(q, '-') {
      SplitInjective(p, q, '-');
    }
  }

  /** Without equal dash counts two different images of one stack can take the same name. */
  lemma DashesInVersionsCollide(p: string, a: string, b: string, c: string)
    ensures DerivedName(p, a + "-" + b, c) == DerivedName(p, a, b + "-" + c)
    ensures a + "-" + b != a
  {
    assert p + "-" + (a + "-" + b) + "-" + c == p + "-" + a + "-" + (b + "-" + c);
    assert |a + "-" + b| > |a|;
  }
}
