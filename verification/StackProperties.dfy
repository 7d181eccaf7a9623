/** What reconciling an OpenStackClusterStackRelease does to the objects, and that doing it again changes nothing. */
module StackProperties {
  import opened Text
  import opened Naming
  import opened Owners
  import opened Cluster
  import opened StackReconciler

  // ---------- the items of a release ----------

  /** There are items unless there are images and a bad tag; item i is for image i, and its name has the segments
      of the tag's stack, of the image name and of the version. */
  lemma ItemsAreNamed(r: StackRelease, a: Assets)
    ensures Items(r, a).Ok? <==> a.images == [] || ValidTag(r.identity.name)
    ensures Items(r, a).Ok? ==>
              var items := Items(r, a).value;
              && |items| == |a.images|
              && forall i :: 0 <= i < |items| ==>
                   && items[i].spec == Spec(a.images[i].url, a.images[i].opts, r.identityRef)
                   && Split(items[i].name, '-')
                      == Split(r.identity.name, '-')[..4] + Split(a.images[i].opts.name, '-') + Split(a.nodeVersion, '-')
  {
    CutKeepsFourSegments(r.identity.name);
    if a.images != [] && ValidTag(r.identity.name) {
      var items := Items(r, a).value;
      forall i | 0 <= i < |items|
        ensures Split(items[i].name, '-')
             == Split(r.identity.name, '-')[..4] + Split(a.images[i].opts.name, '-') + Split(a.nodeVersion, '-')
      {
        DerivedSegments(CutVersion(r.identity.name).value, a.images[i].opts.name, a.nodeVersion);
      }
    }
  }

  /** Two releases whose versions have equally many dashes share an object exactly when they are of the same stack
      and the node images agree in name and version. */
  lemma SharedItems(r: StackRelease, a: Assets, i: nat, q: StackRelease, b: Assets, j: nat)
    requires Items(r, a).Ok? && Items(q, b).Ok? && i < |a.images| && j < |b.images|
    requires Segments(a.nodeVersion) == Segments(b.nodeVersion)
    ensures Items(r, a).value[i].name == Items(q, b).value[j].name
       <==> && Split(r.identity.name, '-')[..4] == Split(q.identity.name, '-')[..4]
            && a.images[i].opts.name == b.images[j].opts.name && a.nodeVersion == b.nodeVersion
  {
    ItemsAreNamed(r, a);
    ItemsAreNamed(q, b);
    var s, t := r.identity.name, q.identity.name;
    CutKeepsFourSegments(s);
    CutKeepsFourSegments(t);
    if Items(r, a).value[i].name == Items(q, b).value[j].name {
      EqualNames(CutVersion(s).value, CutVersion(t).value, a.images[i].opts.name, b.images[j].opts.name,
                 a.nodeVersion, b.nodeVersion);
    }
    if Split(s, '-')[..4] == Split(t, '-')[..4] {
      SplitInjective(CutVersion(s).value, CutVersion(t).value, '-');
    }
  }

  // ---------- the pass over the items ----------

  ghost predicate Names(items: seq<Item>, name: string) {
    exists i :: 0 <= i < |items| && items[i].name == name
  }

  lemma {:induction false} PassKeys(s: Store, items: seq<Item>, owner: OwnerRef)
    ensures forall n :: n in EnsureAll(s, items, owner).nodeImages <==> n in s.nodeImages || Names(items, n)
  {
    if items != [] {
      PassKeys(s, items[..|items| - 1], owner);
      NamesOfLast(items);
    }
  }

  /** One object that was there. */
  lemma {:induction false} PassOld(s: Store, items: seq<Item>, owner: OwnerRef, n: string)
    requires Parseable(owner.apiVersion) && n in s.nodeImages
    ensures var t := EnsureAll(s, items, owner);
            && n in t.nodeImages
            && t.nodeImages[n].spec == s.nodeImages[n].spec && t.nodeImages[n].status == s.nodeImages[n].status
            && t.nodeImages[n].owners == if Names(items, n) then EnsureOwnerRef(s.nodeImages[n].owners, owner)
                                         else s.nodeImages[n].owners
  {
    if items != [] {
      PassOld(s, items[..|items| - 1], owner, n);
      NamesOfLast(items);
      EnsureIdempotent(s.nodeImages[n].owners, owner);
    }
  }

  /** The first item of the name. */
  ghost predicate FirstNamed(items: seq<Item>, name: string, i: int) {
    0 <= i < |items| && items[i].name == name && forall j :: 0 <= j < i ==> items[j].name != name
  }

  /** One object that is new. */
  lemma {:induction false} PassNew(s: Store, items: seq<Item>, owner: OwnerRef, n: string)
    requires Parseable(owner.apiVersion) && n !in s.nodeImages && n in EnsureAll(s, items, owner).nodeImages
    ensures var o := EnsureAll(s, items, owner).nodeImages[n];
            && o.owners == [owner] && o.status == FRESH
            && exists i :: FirstNamed(items, n, i) && items[i].spec == o.spec
  {
    if items != [] {
      var front, last := items[..|items| - 1], items[|items| - 1];
      var u := EnsureAll(s, front, owner);
      if n in u.nodeImages {
        PassNew(s, front, owner, n);
        assert EnsureOwnerRef([owner], owner) == [owner];
        var i :| FirstNamed(front, n, i) && front[i].spec == u.nodeImages[n].spec;
        assert items[i] == front[i] && FirstNamed(items, n, i);
      } else {
        PassKeys(s, front, owner);
        assert FirstNamed(items, n, |items| - 1);
      }
    }
  }

  /** The pass over the items, described object by object: objects that were there keep spec and status, the
      ones named by an item gain the owner and nothing else, the rest are untouched; new objects are just the
      missing items, not ready and owned by this release only. */
  lemma EnsureAllEffect(s: Store, items: seq<Item>, owner: OwnerRef)
    requires Parseable(owner.apiVersion)
    ensures var t := EnsureAll(s, items, owner);
            && (forall n :: n in t.nodeImages <==> n in s.nodeImages || Names(items, n))
            && (forall n :: n in s.nodeImages ==>
                  && t.nodeImages[n].spec == s.nodeImages[n].spec
                  && t.nodeImages[n].status == s.nodeImages[n].status
                  && t.nodeImages[n].owners == if Names(items, n) then EnsureOwnerRef(s.nodeImages[n].owners, owner)
                                               else s.nodeImages[n].owners)
            && (forall n :: n in t.nodeImages && n !in s.nodeImages ==>
                  && t.nodeImages[n].owners == [owner] && t.nodeImages[n].status == FRESH
                  && exists i :: FirstNamed(items, n, i) && items[i].spec == t.nodeImages[n].spec)
  {
    PassKeys(s, items, owner);
    forall n | n in s.nodeImages {
      PassOld(s, items, owner, n);
    }
    forall n | n in EnsureAll(s, items, owner).nodeImages && n !in s.nodeImages {
      PassNew(s, items, owner, n);
    }
  }

  lemma NamesOfLast(items: seq<Item>)
    requires items != []
    ensures forall n :: Names(items, n) <==> Names(items[..|items| - 1], n) || items[|items| - 1].name == n
  {
    var front := items[..|items| - 1];
    forall n | Names(front, n)
      ensures Names(items, n)
    {
      var i :| 0 <= i < |front| && front[i].name == n;
      assert items[i].name == n;
    }
    forall n | Names(items, n) && items[|items| - 1].name != n
      ensures Names(front, n)
    {
      var i :| 0 <= i < |items| && items[i].name == n;
      assert front[i].name == n;
    }
  }

  // ---------- a second pass ----------

  ghost predicate Ensured(s: Store, items: seq<Item>, owner: OwnerRef) {
    forall i :: 0 <= i < |items| ==>
      && items[i].name in s.nodeImages
      && EnsureOwnerRef(s.nodeImages[items[i].name].owners, owner) == s.nodeImages[items[i].name].owners
  }

  lemma {:induction false} EnsuredStays(s: Store, items: seq<Item>, owner: OwnerRef)
    requires Ensured(s, items, owner)
    ensures EnsureAll(s, items, owner) == s
  {
    if items != [] {
      EnsuredStays(s, items[..|items| - 1], owner);
    }
  }

  lemma {:induction false} UnparseableAlwaysWrites(s: Store, items: seq<Item>, owner: OwnerRef)
    requires !Parseable(owner.apiVersion)
    ensures EnsureAll(s, items, owner).revision == s.revision + |items|
  {
    if items != [] {
      UnparseableAlwaysWrites(s, items[..|items| - 1], owner);
      var u, last := EnsureAll(s, items[..|items| - 1], owner), items[|items| - 1];
      if last.name in u.nodeImages {
        UnparseableAppends(u.nodeImages[last.name].owners, owner);
      }
    }
  }

  lemma {:induction false} UnparseableAppends(owners: seq<OwnerRef>, owner: OwnerRef)
    requires !Parseable(owner.apiVersion)
    ensures EnsureOwnerRef(owners, owner) == owners + [owner]
  {
    if owners != [] {
      UnparseableAppends(owners[1..], owner);
      assert owners == [owners[0]] + owners[1..];
    }
  }

  /** A second pass changes nothing, exactly when there is nothing to do or the owner's API version can be parsed. */
  lemma SecondPassIsIdle(s: Store, items: seq<Item>, owner: OwnerRef)
    ensures var once := EnsureAll(s, items, owner);
            EnsureAll(once, items, owner) == once <==> items == [] || Parseable(owner.apiVersion)
  {
    var once := EnsureAll(s, items, owner);
    if Parseable(owner.apiVersion) {
      EnsureAllEffect(s, items, owner);
      forall i | 0 <= i < |items|
        ensures items[i].name in once.nodeImages
        ensures EnsureOwnerRef(once.nodeImages[items[i].name].owners, owner) == once.nodeImages[items[i].name].owners
      {
        assert Names(items, items[i].name);
        if items[i].name in s.nodeImages {
          EnsureIdempotent(s.nodeImages[items[i].name].owners, owner);
        }
      }
      EnsuredStays(once, items, owner);
    } else {
      UnparseableAlwaysWrites(once, items, owner);
    }
  }

  // ---------- what the status and the result say ----------

  /** The stored conditions of the assets tell whether they were there, and whether there was a client for them. */
  lemma AssetsShow(dir: map<string, Assets>, dir': map<string, Assets>, s: Store, s': Store, r: StackRelease, e: Exit, now: nat)
    requires Outcome(dir, dir', s, s', r, e)
    ensures var t, there := StatusAfter(r.status, e, now), r.identity.name in dir;
            && (t.assetsReady.IsTrue() <==> there && e != AssetsIssue)
            && (Shows(t.assetsReady, NotDownloadedYet) <==> !there && e != AssetsIssue)
            && (Shows(t.assetsReady, IssueWithAssets) <==> e == AssetsIssue)
            && (!there && e != AssetsIssue ==> (Shows(t.assetsClient, FailedCreateAssetsClient) <==> e == NoAssetsClient)
                                               && (t.assetsClient.IsTrue() <==> e != NoAssetsClient))
            && (there || e == AssetsIssue ==> t.assetsClient == r.status.assetsClient)
  {
  }

  /** The release is ready or not, as its condition says, by what it owns, once that was listed; before, both are left. */
  lemma JudgementShows(dir: map<string, Assets>, dir': map<string, Assets>, s: Store, s': Store, r: StackRelease, e: Exit, now: nat)
    requires Outcome(dir, dir', s, s', r, e)
    ensures var t := StatusAfter(r.status, e, now);
            var all := (exists n :: Owns(s', r.identity, n)) && forall n :: Owns(s', r.identity, n) ==> s'.nodeImages[n].status.ready;
            if e == NotReadyYet || e == ReadyNow then
              && (t.ready <==> all) && (t.nodeImagesReady.IsTrue() <==> all) && (Shows(t.nodeImagesReady, ProcessOngoing) <==> !all)
              && (ResultOf(e) == Done <==> all) && (ResultOf(e) == RequeueAfter(30) <==> !all)
            else t.ready == r.status.ready && t.nodeImagesReady == r.status.nodeImagesReady
  {
  }

  /** When a release is called again: at once after a download, after 30 seconds while it waits for its objects, after 60
      where the assets had an issue or the download failed, with an error where a file, the tag, a write or the list did;
      not at all if all it owns is ready, or, as the only one that is not ready, without a client for its assets. */
  lemma CalledAgain(dir: map<string, Assets>, dir': map<string, Assets>, s: Store, s': Store, r: StackRelease, e: Exit, now: nat)
    requires Outcome(dir, dir', s, s', r, e)
    ensures var t, tag := StatusAfter(r.status, e, now), r.identity.name;
            && (ResultOf(e) == Requeue <==> tag !in dir && tag in dir')
            && (ResultOf(e) == RequeueAfter(30) <==> e == NotReadyYet)
            && (ResultOf(e) == RequeueAfter(60) <==>
                  Shows(t.assetsReady, IssueWithAssets) || (tag !in dir && tag !in dir' && t.assetsClient.IsTrue()))
            && (ResultOf(e) == Failed <==> e == Unreadable || e == BadTag || e == WriteFailed || e == ListFailed)
            && (ResultOf(e) == Done ==> (t.ready && AllReady(s', r.identity)) || Shows(t.assetsClient, FailedCreateAssetsClient))
            && (!t.ready && e != NoAssetsClient ==> ResultOf(e) != Done)
  {
    AssetsShow(dir, dir', s, s', r, e, now);
  }

  // ---------- a second reconciliation ----------

  /** The ways out of a reconciliation with the assets there and no fault. */
  predicate Orderly(e: Exit) {
    e == NotReadyYet || e == ReadyNow || e == BadTag
  }

  /** Two reconciliations without a fault, with the assets there and nothing in between: the second takes the same
      way out and leaves every object and the release as the first left them. */
  lemma ReconcileIsFixedPoint(dir: map<string, Assets>, s: Store, mid: Store, e: Exit, now: nat,
                              mid': Store, e': Exit, now': nat, name: string)
    requires name in s.releases && s.releases[name].identity.name == name
    requires Parseable(s.releases[name].identity.apiVersion)
    requires Outcome(dir, dir, s, mid, s.releases[name], e) && Orderly(e)
    requires var s1 := PatchRelease(mid, name, StatusAfter(s.releases[name].status, e, now));
             Outcome(dir, dir, s1, mid', s1.releases[name], e') && Orderly(e')
    ensures var s1 := PatchRelease(mid, name, StatusAfter(s.releases[name].status, e, now));
            e' == e && PatchRelease(mid', name, StatusAfter(s1.releases[name].status, e', now')) == s1
  {
    var r := s.releases[name];
    var s1 := PatchRelease(mid, name, StatusAfter(r.status, e, now));
    var r1 := s1.releases[name];
    assert Items(r1, dir[name]) == Items(r, dir[name]) by {
      assert r1.identity == r.identity && r1.identityRef == r.identityRef;
    }
    if e != BadTag {
      var items, owner := Items(r, dir[name]).value, Generate(r.identity);
      SecondPassIsIdle(s, items, owner);
      EnsureAllIgnoresReleases(mid, s1, items, owner);
      assert mid'.nodeImages == s1.nodeImages && mid' == s1;
      forall n
        ensures Owns(mid', r.identity, n) <==> Owns(mid, r.identity, n)
      {
      }
      assert AllReady(mid', r.identity) <==> AllReady(mid, r.identity);
    }
    assert s1.releases[name := r1] == s1.releases;
  }

  lemma {:induction false} EnsureAllIgnoresReleases(s: Store, t: Store, items: seq<Item>, owner: OwnerRef)
    requires t == s.(releases := t.releases)
    ensures EnsureAll(t, items, owner) == EnsureAll(s, items, owner).(releases := t.releases)
  {
    if items != [] {
      EnsureAllIgnoresReleases(s, t, items[..|items| - 1], owner);
    }
  }
}
