/** A second measure, of what can still be written. No faultless event raises it, and one that writes an object or
    changes an image lowers it. So objects and images come to rest, and Updates stop losing. */
module Unrest {
  import opened Wrappers
  import opened Owners
  import opened Glance
  import opened Cluster
  import opened StackReconciler
  import opened Protocol
  import opened Invariants
  import opened Measures
  import opened Convergence
  import opened FaultlessRuns
  import N = NodeImageReconciler

  // ---------- what can still change ----------

  function NamesFor(catalog: map<string, Assets>, r: StackRelease): set<string> {
    var tag := r.identity.name;
    if tag in catalog && Items(r, catalog[tag]).Ok? then NamesOf(Items(r, catalog[tag]).value) else {}
  }

  function NamesForAll(catalog: map<string, Assets>, releases: map<string, StackRelease>): set<string> {
    set k, n | k in releases && n in NamesFor(catalog, releases[k]) :: n
  }

  /** Objects still to be created. */
  function Unborn(cfg: Config, w: World): set<string> {
    NamesForAll(cfg.catalog, w.store.releases) - w.store.nodeImages.Keys
  }

  function WithoutImage(w: World): set<string> {
    set n | n in w.store.nodeImages && Matching(w, n) == {}
  }

  function AllSteps(w: World): set<(ImageId, int)> {
    set id, k | id in w.images && 0 <= k < Distance(w.images[id].status) :: (id, k)
  }

  predicate WillBeOverdue(cfg: Config, w: World, n: string)
    requires n in w.store.nodeImages
  {
    var c := w.store.nodeImages[n].status.importStarted;
    cfg.timeout > 0 && c.IsTrue() && !N.Overdue(c, w.now, cfg.timeout)
  }

  /** Objects whose timeout is still to come. */
  function Waiting(cfg: Config, w: World): set<string> {
    set n | n in w.store.nodeImages && WillBeOverdue(cfg, w, n)
  }

  /** The way out of a visit that reads the image. */
  function Reading(cfg: Config, w: World, n: string, id: ImageId): N.Exit
    requires n in w.store.nodeImages && id in w.images
  {
    var status := w.images[id].status;
    if status != Active && N.Overdue(w.store.nodeImages[n].status.importStarted, w.now, cfg.timeout) then N.TimedOut(id)
    else N.Verdict(id, status)
  }

  ghost predicate Stirred(cfg: Config, w: World, n: string)
    requires n in w.store.nodeImages
  {
    exists id :: id in Matching(w, n)
      && N.After(w.store.nodeImages[n].status, Reading(cfg, w, n, id), w.now) != w.store.nodeImages[n].status
  }

  /** Objects whose status a visit would change. */
  ghost function Restless(cfg: Config, w: World): set<string> {
    set n | n in w.store.nodeImages && Stirred(cfg, w, n)
  }

  predicate Unensured(w: World, r: string, n: string) {
    && r in w.store.releases && n in w.store.nodeImages
    && EnsureOwnerRef(w.store.nodeImages[n].owners, Generate(w.store.releases[r].identity)) != w.store.nodeImages[n].owners
  }

  /** Owners that an Update would change. */
  function Changeable(w: World): set<(string, string)> {
    set r, n | r in w.store.releases && n in w.store.nodeImages && Unensured(w, r, n) :: (r, n)
  }

  ghost function UnrestOf(cfg: Config, w: World): Measure {
    Measure(|Unborn(cfg, w)|, |WithoutImage(w)|, |AllSteps(w)|, |Waiting(cfg, w)|, |Restless(cfg, w)|, |Changeable(w)|)
  }

  // ---------- measures from sets ----------

  /** Set by set, in the order of the measure. */
  ghost predicate Calms(cfg: Config, w: World, w': World) {
    && Unborn(cfg, w') <= Unborn(cfg, w)
    && (Unborn(cfg, w') == Unborn(cfg, w) ==> CalmsImages(cfg, w, w'))
  }

  ghost predicate CalmsImages(cfg: Config, w: World, w': World) {
    && WithoutImage(w') <= WithoutImage(w)
    && (WithoutImage(w') == WithoutImage(w) ==> AllSteps(w') <= AllSteps(w))
    && (WithoutImage(w') == WithoutImage(w) && AllSteps(w') == AllSteps(w) ==> CalmsObjects(cfg, w, w'))
  }

  ghost predicate CalmsObjects(cfg: Config, w: World, w': World) {
    && Waiting(cfg, w') <= Waiting(cfg, w)
    && (Waiting(cfg, w') == Waiting(cfg, w) ==> Restless(cfg, w') <= Restless(cfg, w))
    && (Waiting(cfg, w') == Waiting(cfg, w) && Restless(cfg, w') == Restless(cfg, w) ==> Changeable(w') <= Changeable(w))
  }

  ghost predicate SameUnrest(cfg: Config, w: World, w': World) {
    && Unborn(cfg, w') == Unborn(cfg, w) && WithoutImage(w') == WithoutImage(w) && AllSteps(w') == AllSteps(w)
    && Waiting(cfg, w') == Waiting(cfg, w) && Restless(cfg, w') == Restless(cfg, w) && Changeable(w') == Changeable(w)
  }

  lemma ObjectCounts(cfg: Config, w: World, w': World)
    requires CalmsObjects(cfg, w, w')
    ensures var x, y := UnrestOf(cfg, w'), UnrestOf(cfg, w);
            && x.d <= y.d
            && (x.d == y.d ==> x.e <= y.e && Waiting(cfg, w') == Waiting(cfg, w))
            && (x.d == y.d && x.e == y.e ==> x.f <= y.f && Restless(cfg, w') == Restless(cfg, w))
            && (x.d == y.d && x.e == y.e && x.f == y.f ==> Changeable(w') == Changeable(w))
  {
    Smaller(Waiting(cfg, w'), Waiting(cfg, w));
    if Waiting(cfg, w') == Waiting(cfg, w) {
      Smaller(Restless(cfg, w'), Restless(cfg, w));
      if Restless(cfg, w') == Restless(cfg, w) {
        Smaller(Changeable(w'), Changeable(w));
      }
    }
  }

  lemma Calmer(cfg: Config, w: World, w': World)
    requires Calms(cfg, w, w')
    ensures AtMost(UnrestOf(cfg, w'), UnrestOf(cfg, w))
    ensures UnrestOf(cfg, w') == UnrestOf(cfg, w) ==> SameUnrest(cfg, w, w')
  {
    Smaller(Unborn(cfg, w'), Unborn(cfg, w));
    if Unborn(cfg, w') == Unborn(cfg, w) {
      Smaller(WithoutImage(w'), WithoutImage(w));
      if WithoutImage(w') == WithoutImage(w) {
        Smaller(AllSteps(w'), AllSteps(w));
        if AllSteps(w') == AllSteps(w) {
          ObjectCounts(cfg, w, w');
        }
      }
    }
  }

  /** The event did not raise the unrest, and lowered it if it wrote an object or changed an image. */
  ghost predicate ComesToRest(cfg: Config, w: World, w': World) {
    && AtMost(UnrestOf(cfg, w'), UnrestOf(cfg, w))
    && (UnrestOf(cfg, w') == UnrestOf(cfg, w) ==>
          w'.store.nodeImages == w.store.nodeImages && w'.images == w.images)
  }

  lemma RestComposes(cfg: Config, w: World, w1: World, w2: World)
    requires ComesToRest(cfg, w, w1) && ComesToRest(cfg, w1, w2)
    ensures ComesToRest(cfg, w, w2)
  {
    Ordered(UnrestOf(cfg, w2), UnrestOf(cfg, w1), UnrestOf(cfg, w));
  }

  // ---------- frames ----------

  lemma SameImageSets(w: World, w': World)
    requires w'.images == w.images && w'.store.nodeImages.Keys == w.store.nodeImages.Keys
    requires forall n :: n in w.store.nodeImages ==> w'.store.nodeImages[n].spec == w.store.nodeImages[n].spec
    ensures WithoutImage(w') == WithoutImage(w) && AllSteps(w') == AllSteps(w)
    ensures forall n :: n in w.store.nodeImages ==> Matching(w', n) == Matching(w, n)
  {
    forall n | n in w.store.nodeImages
      ensures Matching(w', n) == Matching(w, n)
    {
    }
  }

  /** An object in the same status is waiting and restless as before. */
  lemma SameStatusSame(cfg: Config, w: World, w': World, n: string)
    requires n in w.store.nodeImages && n in w'.store.nodeImages && w'.images == w.images && w'.now == w.now
    requires w'.store.nodeImages[n].spec == w.store.nodeImages[n].spec
    requires w'.store.nodeImages[n].status == w.store.nodeImages[n].status
    ensures WillBeOverdue(cfg, w', n) == WillBeOverdue(cfg, w, n) && (Stirred(cfg, w', n) <==> Stirred(cfg, w, n))
  {
    assert Matching(w', n) == Matching(w, n);
    assert forall i :: i in Matching(w, n) ==> Reading(cfg, w', n, i) == Reading(cfg, w, n, i);
  }

  /** The releases differ in statuses at most. */
  ghost predicate SameReleases(w: World, w': World) {
    && w'.store.releases.Keys == w.store.releases.Keys
    && forall k :: k in w.store.releases ==>
         w'.store.releases[k] == w.store.releases[k].(status := w'.store.releases[k].status)
  }

  lemma SameNames(cfg: Config, w: World, w': World)
    requires SameReleases(w, w')
    ensures NamesForAll(cfg.catalog, w'.store.releases) == NamesForAll(cfg.catalog, w.store.releases)
  {
    forall k | k in w.store.releases
      ensures NamesFor(cfg.catalog, w'.store.releases[k]) == NamesFor(cfg.catalog, w.store.releases[k])
    {
      SameNamesFor(cfg.catalog, w.store.releases[k], w'.store.releases[k]);
    }
  }

  lemma SameNamesFor(catalog: map<string, Assets>, r: StackRelease, q: StackRelease)
    requires q == r.(status := q.status)
    ensures NamesFor(catalog, q) == NamesFor(catalog, r)
  {
    var tag := r.identity.name;
    assert tag in catalog ==> Items(q, catalog[tag]) == Items(r, catalog[tag]);
  }

  // ---------- the clock and the image service ----------

  /** What a visit would do to a status does not depend on when, unless it creates. */
  lemma StableAnyTime(s: Status, e: N.Exit, now: nat, later: nat)
    requires !N.Creating(e)
    ensures N.After(s, e, now) == s <==> N.After(s, e, later) == s
  {
  }

  lemma SameOwners(w: World, w': World)
    requires SameReleases(w, w') && w'.store.nodeImages.Keys == w.store.nodeImages.Keys
    requires forall n :: n in w.store.nodeImages ==> w'.store.nodeImages[n].owners == w.store.nodeImages[n].owners
    ensures Changeable(w') == Changeable(w)
  {
    assert forall r, n :: Unensured(w', r, n) <==> Unensured(w, r, n);
  }

  lemma TickRests(cfg: Config, w: World, w': World)
    requires w' == w.(now := w'.now) && w.now <= w'.now
    ensures ComesToRest(cfg, w, w')
  {
    SameImageSets(w, w');
    SameOwners(w, w');
    assert Waiting(cfg, w') <= Waiting(cfg, w);
    if Waiting(cfg, w') == Waiting(cfg, w) {
      forall n | n in w.store.nodeImages
        ensures Stirred(cfg, w', n) <==> Stirred(cfg, w, n)
      {
        TickStirs(cfg, w, w', n);
      }
      assert Restless(cfg, w') == Restless(cfg, w);
    }
    Calmer(cfg, w, w');
  }

  lemma TickStirs(cfg: Config, w: World, w': World, n: string)
    requires w' == w.(now := w'.now) && w.now <= w'.now && Waiting(cfg, w') == Waiting(cfg, w) && n in w.store.nodeImages
    ensures Stirred(cfg, w', n) <==> Stirred(cfg, w, n)
  {
    assert n in Waiting(cfg, w') <==> n in Waiting(cfg, w);
    forall id | id in Matching(w, n)
      ensures var s := w.store.nodeImages[n].status;
              && Reading(cfg, w', n, id) == Reading(cfg, w, n, id)
              && (N.After(s, Reading(cfg, w', n, id), w'.now) == s <==> N.After(s, Reading(cfg, w, n, id), w.now) == s)
    {
      StableAnyTime(w.store.nodeImages[n].status, Reading(cfg, w, n, id), w.now, w'.now);
    }
  }

  lemma ForwardSteps(w: World, w': World)
    requires w' == w.(images := w'.images) && Forward(w.images, w'.images)
    ensures AllSteps(w') <= AllSteps(w)
    ensures AllSteps(w') == AllSteps(w) ==> w'.images == w.images
  {
    if AllSteps(w') == AllSteps(w) {
      forall id | id in w.images
        ensures w'.images[id] == w.images[id]
      {
        var d: int := Distance(w.images[id].status) - 1;
        assert (id, d) in AllSteps(w) <==> d >= 0;
        assert (id, d) in AllSteps(w') <==> 0 <= d < Distance(w'.images[id].status);
      }
    }
  }

  lemma ForwardRests(cfg: Config, w: World, w': World)
    requires w' == w.(images := w'.images) && Forward(w.images, w'.images)
    ensures ComesToRest(cfg, w, w')
  {
    ForwardSteps(w, w');
    forall n | n in w.store.nodeImages
      ensures Matching(w', n) == Matching(w, n)
    {
    }
    assert WithoutImage(w') == WithoutImage(w);
    Calmer(cfg, w, w');
  }

  // ---------- visits ----------

  lemma MakingRests(cfg: Config, w: World, w': World, n: string, img: Image)
    requires Sound(cfg, w) && n in w.store.nodeImages && MadeFor(w, w', n, img)
    ensures ComesToRest(cfg, w, w')
  {
    forall m | m in w.store.nodeImages
      ensures Matching(w, m) != {} ==> Matching(w', m) != {}
      ensures m == n ==> Matching(w', m) != {}
    {
      NewImageIsNew(cfg, w, w', n, img, m);
    }
    assert n in WithoutImage(w) && n !in WithoutImage(w');
    Calmer(cfg, w, w');
  }

  /** The visit read the one image of the object. */
  ghost predicate ReadImage(cfg: Config, w: World, w': World, n: string, id: ImageId)
    requires n in w.store.nodeImages && id in w.images
  {
    && Matching(w, n) == {id} && w'.images == w.images && w'.now == w.now && OnlyStatusOf(w, w', n)
    && w'.store.nodeImages[n].status == N.After(w.store.nodeImages[n].status, Reading(cfg, w, n, id), w.now)
    && (w'.store.nodeImages[n].status == w.store.nodeImages[n].status ==> w'.store.nodeImages[n] == w.store.nodeImages[n])
  }

  lemma AfterIsStable(s: Status, e: N.Exit, now: nat)
    requires !N.Creating(e)
    ensures N.After(N.After(s, e, now), e, now) == N.After(s, e, now)
    ensures N.After(s, e, now).importStarted == s.importStarted
  {
  }

  lemma ReadingStills(cfg: Config, w: World, w': World, n: string, id: ImageId)
    requires n in w.store.nodeImages && id in w.images && ReadImage(cfg, w, w', n, id)
    ensures Waiting(cfg, w') == Waiting(cfg, w) && Restless(cfg, w') == Restless(cfg, w) - {n}
  {
    AfterIsStable(w.store.nodeImages[n].status, Reading(cfg, w, n, id), w.now);
    assert Matching(w', n) == {id} && Reading(cfg, w', n, id) == Reading(cfg, w, n, id);
    assert !Stirred(cfg, w', n);
    forall m | m in w.store.nodeImages && m != n
      ensures WillBeOverdue(cfg, w', m) == WillBeOverdue(cfg, w, m) && (Stirred(cfg, w', m) <==> Stirred(cfg, w, m))
    {
      SameStatusSame(cfg, w, w', m);
    }
  }

  lemma NotRestlessReads(cfg: Config, w: World, w': World, n: string, id: ImageId)
    requires n in w.store.nodeImages && id in w.images && ReadImage(cfg, w, w', n, id) && n !in Restless(cfg, w)
    ensures w'.store.nodeImages == w.store.nodeImages
  {
    assert id in Matching(w, n);
    assert w'.store.nodeImages[n] == w.store.nodeImages[n];
  }

  lemma ReadingRests(cfg: Config, w: World, w': World, n: string, id: ImageId)
    requires n in w.store.nodeImages && id in w.images && ReadImage(cfg, w, w', n, id)
    ensures ComesToRest(cfg, w, w')
  {
    ReadingStills(cfg, w, w', n, id);
    SameImageSets(w, w');
    SameOwners(w, w');
    Calmer(cfg, w, w');
    if n !in Restless(cfg, w) {
      NotRestlessReads(cfg, w, w', n, id);
    }
  }

  /** The effect of an answered visit, images drifted before. */
  lemma AnsweredEffect(cfg: Config, w: World, v: Visit)
    requires Sound(cfg, w) && LegitVisit(w, v) && Answered(w, v) && v.between == w.images
    ensures var w', n := ApplyVisit(cfg, w, v), v.name;
            if Matching(w, n) == {} then MadeFor(w, w', n, Image(w.store.nodeImages[n].spec.opts, true, Queued))
            else |v.answers.listing.ids| > 0 && v.answers.listing.ids[0] in w.images
                 && ReadImage(cfg, w, w', n, v.answers.listing.ids[0])
  {
    var n := v.name;
    VisitTouchesStatus(cfg, w, v);
    VisitFrame(cfg, w, v, n);
    if Matching(w, n) == {} {
      MakesOnlyWhatIsMissing(cfg, w, v);
      assert v.answers.listing.ids == [];
    } else {
      AnsweredReads(cfg, w, v);
    }
  }

  lemma OneListed(cfg: Config, w: World, v: Visit)
    requires Sound(cfg, w) && LegitVisit(w, v) && Answered(w, v) && v.between == w.images && Matching(w, v.name) != {}
    ensures var ids := v.answers.listing.ids; |ids| == 1 && ids[0] in w.images && Matching(w, v.name) == {ids[0]}
  {
    var found, ids := Matching(w, v.name), v.answers.listing.ids;
    assert Unambiguous(w.images, cfg.specs) && w.store.nodeImages[v.name].spec.opts in cfg.specs;
    ListingSize(ids, found);
    var id :| id in found;
    assert id in ids && ids[0] == id;
  }

  lemma AnsweredReads(cfg: Config, w: World, v: Visit)
    requires Sound(cfg, w) && LegitVisit(w, v) && Answered(w, v) && v.between == w.images && Matching(w, v.name) != {}
    ensures var ids := v.answers.listing.ids;
            && |ids| == 1 && ids[0] in w.images && Matching(w, v.name) == {ids[0]}
            && VisitExit(cfg, w, v) == Reading(cfg, w, v.name, ids[0])
            && ApplyVisit(cfg, w, v).images == w.images
  {
    OneListed(cfg, w, v);
  }

  lemma VisitRests(cfg: Config, w: World, v: Visit)
    requires Sound(cfg, w) && LegitVisit(w, v) && Answered(w, v)
    ensures ComesToRest(cfg, w, ApplyVisit(cfg, w, v))
  {
    var w1, w' := w.(images := v.between), ApplyVisit(cfg, w, v);
    ForwardRests(cfg, w, w1);
    DriftKeepsSound(cfg, w, v.between);
    VisitAfterDrift(cfg, w, v);
    AnsweredEffect(cfg, w1, v);
    if Matching(w1, v.name) == {} {
      MakingRests(cfg, w1, w', v.name, Image(w1.store.nodeImages[v.name].spec.opts, true, Queued));
    } else {
      ReadingRests(cfg, w1, w', v.name, v.answers.listing.ids[0]);
    }
    RestComposes(cfg, w, w1, w');
  }

  // ---------- writes ----------

  lemma {:induction false} EnsureKeepsEnsured(owners: seq<OwnerRef>, g: OwnerRef, h: OwnerRef)
    requires !SameReferent(g, h) && EnsureOwnerRef(owners, h) == owners
    ensures EnsureOwnerRef(EnsureOwnerRef(owners, g), h) == EnsureOwnerRef(owners, g)
  {
    if owners != [] {
      var o := owners[0];
      if SameReferent(o, h) {
        assert o == h;
      } else {
        assert owners[1..] == EnsureOwnerRef(owners, h)[1..] == EnsureOwnerRef(owners[1..], h);
        if SameReferent(o, g) {
          assert ([g] + owners[1..])[1..] == owners[1..];
        } else {
          EnsureKeepsEnsured(owners[1..], g, h);
        }
      }
    }
  }

  /** An accepted write of a release as it is stored: the object is new, or its owners are ensured. */
  ghost predicate Wrote(w: World, w': World, r: string, n: string) {
    && r in w.store.releases && n in w'.store.nodeImages && w'.images == w.images && w'.now == w.now && SameReleases(w, w')
    && w'.store.nodeImages == w.store.nodeImages[n := w'.store.nodeImages[n]]
    && (n in w.store.nodeImages ==>
          var o, o' := w.store.nodeImages[n], w'.store.nodeImages[n];
          && o'.owners == EnsureOwnerRef(o.owners, Generate(w.store.releases[r].identity))
          && o'.spec == o.spec && o'.status == o.status
          && (o'.owners == o.owners ==> o' == o))
  }

  lemma CreatingRests(cfg: Config, w: World, w': World, r: string, n: string)
    requires Wrote(w, w', r, n) && n !in w.store.nodeImages && n in NamesFor(cfg.catalog, w.store.releases[r])
    ensures ComesToRest(cfg, w, w')
  {
    SameNames(cfg, w, w');
    assert n in Unborn(cfg, w) && n !in Unborn(cfg, w');
    Calmer(cfg, w, w');
  }

  lemma UpdatingEnsures(w: World, w': World, r: string, n: string)
    requires Wrote(w, w', r, n) && n in w.store.nodeImages
    requires forall k :: k in w.store.releases ==>
               w.store.releases[k].identity.name == k && Parseable(w.store.releases[k].identity.apiVersion)
    ensures Changeable(w') <= Changeable(w) - {(r, n)}
  {
    var o, g := w.store.nodeImages[n].owners, Generate(w.store.releases[r].identity);
    EnsureIdempotent(o, g);
    forall k, m
      ensures Unensured(w', k, m) ==> Unensured(w, k, m) && (k, m) != (r, n)
    {
      if m == n && k in w.store.releases && k != r && !Unensured(w, k, m) {
        EnsureKeepsEnsured(o, g, Generate(w.store.releases[k].identity));
      }
    }
  }

  lemma EnsuredUpdates(w: World, w': World, r: string, n: string)
    requires Wrote(w, w', r, n) && n in w.store.nodeImages && (r, n) !in Changeable(w)
    ensures w'.store.nodeImages == w.store.nodeImages
  {
    assert !Unensured(w, r, n);
  }

  lemma UpdatingRests(cfg: Config, w: World, w': World, r: string, n: string)
    requires StackFlagsAgree(w) && Wrote(w, w', r, n) && n in w.store.nodeImages
    ensures ComesToRest(cfg, w, w')
  {
    SameNames(cfg, w, w');
    UpdatingEnsures(w, w', r, n);
    SameImageSets(w, w');
    forall m | m in w.store.nodeImages
      ensures WillBeOverdue(cfg, w', m) == WillBeOverdue(cfg, w, m) && (Stirred(cfg, w', m) <==> Stirred(cfg, w, m))
    {
      SameStatusSame(cfg, w, w', m);
    }
    Calmer(cfg, w, w');
    if (r, n) !in Changeable(w) {
      EnsuredUpdates(w, w', r, n);
    }
  }

  // ---------- calls ----------

  lemma QuietRests(cfg: Config, w: World, w': World)
    requires SameReleases(w, w') && w'.store.nodeImages == w.store.nodeImages && w'.images == w.images && w'.now == w.now
    ensures ComesToRest(cfg, w, w')
  {
    SameNames(cfg, w, w');
    SameImageSets(w, w');
    SameOwners(w, w');
    forall m | m in w.store.nodeImages
      ensures WillBeOverdue(cfg, w', m) == WillBeOverdue(cfg, w, m) && (Stirred(cfg, w', m) <==> Stirred(cfg, w, m))
    {
      SameStatusSame(cfg, w, w', m);
    }
    Calmer(cfg, w, w');
  }

  lemma AcceptedWrites(cfg: Config, w: World, w': World, n: string)
    requires Sound(cfg, w) && n in w.tasks && Current(w, n) && SameReleases(w, w') && w'.images == w.images && w'.now == w.now
    requires w.tasks[n].done < |w.tasks[n].items| && WriteAccepted(w, w.tasks[n])
    requires w'.store.nodeImages == WriteOf(w.store, w.tasks[n]).nodeImages
    ensures var x := w.tasks[n].items[w.tasks[n].done].name;
            Wrote(w, w', n, x) && x in NamesFor(cfg.catalog, w.store.releases[n])
  {
    var t := w.tasks[n];
    WriteAdopts(w, n);
    assert t.items[t.done].name in NamesOf(t.items);
    assert w.store.releases[n].identity.name == n && Items(w.store.releases[n], cfg.catalog[n]) == Ok(t.items);
  }

  lemma CallRests(cfg: Config, w: World, n: string, s: StackStep)
    requires Sound(cfg, w) && LegitStack(cfg, w, n, s) && FaultlessCall(cfg, w, n, s) && Current(w, n)
    ensures ComesToRest(cfg, w, ApplyStack(cfg, w, n, s))
  {
    var w' := ApplyStack(cfg, w, n, s);
    StackFrame(cfg, w, n, s);
    FlagIsKept(cfg, w, n, s, n);
    StackKeepsTheRest(cfg, w, n, s);
    if s.Write? && s.answer == Accepted {
      AcceptedWrites(cfg, w, w', n);
      var x := w.tasks[n].items[w.tasks[n].done].name;
      if x in w.store.nodeImages {
        UpdatingRests(cfg, w, w', n, x);
      } else {
        CreatingRests(cfg, w, w', n, x);
      }
    } else {
      QuietRests(cfg, w, w');
    }
  }

  /** No faultless event raises the unrest, and one that writes an object or changes an image lowers it. */
  lemma FaultlessRests(cfg: Config, w: World, e: Event)
    requires Sound(cfg, w) && Faultless(cfg, w, e) && (e.Stack? ==> Current(w, e.release))
    ensures ComesToRest(cfg, w, Apply(cfg, w, e))
  {
    match e {
      case Outside(s) =>
        if s.Drift? {
          ForwardRests(cfg, w, ApplyOutside(cfg, w, s));
        } else {
          TickRests(cfg, w, ApplyOutside(cfg, w, s));
        }
      case NodeVisit(v) => VisitRests(cfg, w, v);
      case Stack(n, s) => CallRests(cfg, w, n, s);
    }
  }
}
