/** A measure of how far a release is from being ready. As long as the image service only brings images closer to
    active and nobody deletes objects or edits owners, no event raises it: no call of any reconciliation in flight,
    no visit of any object, failing or not. */
module Convergence {
  import opened Owners
  import opened Glance
  import opened Cluster
  import opened StackReconciler
  import opened Protocol
  import opened Invariants
  import opened Measures
  import N = NodeImageReconciler

  // ---------- images on their way ----------

  /** How far the image service still has to take an image: none for statuses it does not leave. */
  function Distance(s: ImageStatus): nat {
    match s
    case Queued => 3
    case Uploading => 2
    case Saving | Importing => 1
    case _ => 0
  }

  predicate Underway(s: ImageStatus) {
    s.Queued? || s.Saving? || s.Importing? || s.Uploading?
  }

  /** No image disappears, and each keeps its status or gets closer to active. */
  ghost predicate Forward(before: Images, after: Images) {
    && Drifts(before, after) && after.Keys == before.Keys
    && forall id :: id in before ==>
         || after[id].status == before[id].status
         || (Underway(before[id].status) && (after[id].status == Active || Underway(after[id].status))
             && Distance(after[id].status) < Distance(before[id].status))
  }

  /** The events of a run in which nobody takes anything away. Calls, answers and patches may still fail. */
  ghost predicate Benign(w: World, e: Event) {
    match e
    case Outside(Tick(_)) => true
    case Outside(Drift(images)) => Forward(w.images, images)
    case Outside(AddRelease(_)) => true
    case Outside(_) => false
    case NodeVisit(v) => Forward(w.images, v.between)
    case Stack(_, _) => true
  }

  /** Any state that keeps the invariant, with any number of reconciliations in flight. */
  ghost predicate Sound(cfg: Config, w: World) {
    WellFormed(cfg) && Inv(cfg, w) && Compatible(cfg.specs) && forall o :: o in cfg.specs ==> !o.hidden
  }

  // ---------- the measure ----------

  /** The release exists, has a valid tag and at least one node image. */
  ghost predicate Wanted(cfg: Config, w: World, name: string) {
    && name in w.store.releases && name in cfg.catalog && cfg.catalog[name].images != []
    && Items(w.store.releases[name], cfg.catalog[name]).Ok?
  }

  function ItemsOf(cfg: Config, w: World, name: string): seq<Item>
    requires name in w.store.releases && name in cfg.catalog && Items(w.store.releases[name], cfg.catalog[name]).Ok?
  {
    Items(w.store.releases[name], cfg.catalog[name]).value
  }

  function NamesOf(items: seq<Item>): set<string> {
    set i | 0 <= i < |items| :: items[i].name
  }

  ghost function Owning(w: World, name: string): set<string>
    requires name in w.store.releases
  {
    set n | n in w.store.nodeImages && OwnedBy(w.store.nodeImages[n].owners, w.store.releases[name].identity)
  }

  function Matching(w: World, n: string): set<ImageId>
    requires n in w.store.nodeImages
  {
    Lookup(w.images, w.store.nodeImages[n].spec.opts)
  }

  ghost function Missing(cfg: Config, w: World, name: string): set<string>
    requires Wanted(cfg, w, name)
  {
    NamesOf(ItemsOf(cfg, w, name)) - Owning(w, name)
  }

  ghost function Imageless(w: World, name: string): set<string>
    requires name in w.store.releases
  {
    set n | n in Owning(w, name) && Matching(w, n) == {}
  }

  ghost function Steps(w: World, name: string): set<(ImageId, int)>
    requires name in w.store.releases
  {
    set n, id, k | n in Owning(w, name) && id in Matching(w, n) && 0 <= k < Distance(w.images[id].status) :: (id, k)
  }

  ghost predicate Settled(w: World, n: string)
    requires n in w.store.nodeImages
  {
    w.store.nodeImages[n].status.ready && exists id :: id in Matching(w, n) && w.images[id].status == Active
  }

  ghost function Unsettled(w: World, name: string): set<string>
    requires name in w.store.releases
  {
    set n | n in Owning(w, name) && !Settled(w, n)
  }

  /** Nothing is left to do for the release. */
  ghost predicate Finished(cfg: Config, w: World, name: string)
    requires Wanted(cfg, w, name)
  {
    && name in w.downloaded && Missing(cfg, w, name) == {} && Unsettled(w, name) == {}
    && w.store.releases[name].status.ready
  }

  /** Assets missing, objects missing or unowned, owned objects without image, steps of their images, owned objects
      not settled, release not finished. */
  ghost function RankOf(cfg: Config, w: World, name: string): Measure
    requires Wanted(cfg, w, name)
  {
    Measure(if name in w.downloaded then 0 else 1, |Missing(cfg, w, name)|, |Imageless(w, name)|, |Steps(w, name)|,
            |Unsettled(w, name)|, if Finished(cfg, w, name) then 0 else 1)
  }

  // ---------- ranks from sets ----------

  /** The parts of the measure that concern the owned objects. */
  ghost predicate SameSets(w: World, w': World, name: string)
    requires name in w.store.releases && name in w'.store.releases
  {
    Imageless(w', name) == Imageless(w, name) && Steps(w', name) == Steps(w, name) && Unsettled(w', name) == Unsettled(w, name)
  }

  /** Nothing got worse, set by set in the order of the measure. */
  ghost predicate NoWorse(cfg: Config, w: World, w': World, name: string)
    requires Wanted(cfg, w, name) && Wanted(cfg, w', name)
  {
    && w.downloaded <= w'.downloaded
    && Missing(cfg, w', name) <= Missing(cfg, w, name)
    && (Missing(cfg, w', name) == Missing(cfg, w, name) ==>
          && Imageless(w', name) <= Imageless(w, name)
          && (Imageless(w', name) == Imageless(w, name) ==> Steps(w', name) <= Steps(w, name))
          && (Imageless(w', name) == Imageless(w, name) && Steps(w', name) == Steps(w, name) ==>
                Unsettled(w', name) <= Unsettled(w, name))
          && (Finished(cfg, w, name) && SameSets(w, w', name) ==> w'.store.releases[name].status.ready))
  }

  /** Something got better. */
  ghost predicate Better(cfg: Config, w: World, w': World, name: string)
    requires Wanted(cfg, w, name) && Wanted(cfg, w', name)
  {
    || (name !in w.downloaded && name in w'.downloaded)
    || Missing(cfg, w', name) != Missing(cfg, w, name)
    || !SameSets(w, w', name)
    || (Finished(cfg, w', name) && !Finished(cfg, w, name))
  }

  lemma CountsFollowSets(cfg: Config, w: World, w': World, name: string)
    requires Wanted(cfg, w, name) && Wanted(cfg, w', name) && NoWorse(cfg, w, w', name)
    ensures var x, y := RankOf(cfg, w', name), RankOf(cfg, w, name);
            && x.b <= y.b && (x.b == y.b ==> Missing(cfg, w', name) == Missing(cfg, w, name))
            && (x.b == y.b ==> x.c <= y.c)
            && (x.b == y.b && x.c == y.c ==> x.d <= y.d && Imageless(w', name) == Imageless(w, name))
            && (x.b == y.b && x.c == y.c && x.d == y.d ==> x.e <= y.e && Steps(w', name) == Steps(w, name))
            && (x.b == y.b && x.c == y.c && x.d == y.d && x.e == y.e ==> SameSets(w, w', name))
  {
    Smaller(Missing(cfg, w', name), Missing(cfg, w, name));
    if Missing(cfg, w', name) == Missing(cfg, w, name) {
      Smaller(Imageless(w', name), Imageless(w, name));
      if Imageless(w', name) == Imageless(w, name) {
        Smaller(Steps(w', name), Steps(w, name));
        if Steps(w', name) == Steps(w, name) {
          Smaller(Unsettled(w', name), Unsettled(w, name));
        }
      }
    }
  }

  lemma FinishedIsKept(cfg: Config, w: World, w': World, name: string)
    requires Wanted(cfg, w, name) && Wanted(cfg, w', name) && NoWorse(cfg, w, w', name)
    requires Missing(cfg, w', name) == Missing(cfg, w, name) && SameSets(w, w', name)
    ensures Finished(cfg, w, name) ==> Finished(cfg, w', name)
  {
  }

  lemma NoWorseRank(cfg: Config, w: World, w': World, name: string)
    requires Wanted(cfg, w, name) && Wanted(cfg, w', name) && NoWorse(cfg, w, w', name)
    ensures AtMost(RankOf(cfg, w', name), RankOf(cfg, w, name))
    ensures Better(cfg, w, w', name) ==> Below(RankOf(cfg, w', name), RankOf(cfg, w, name))
  {
    var x, y := RankOf(cfg, w', name), RankOf(cfg, w, name);
    CountsFollowSets(cfg, w, w', name);
    if x.b == y.b && x.c == y.c && x.d == y.d && x.e == y.e {
      FinishedIsKept(cfg, w, w', name);
    }
  }

  /** What the rank of a release looks at, apart from the images. */
  ghost predicate SameFor(cfg: Config, w: World, w': World, name: string)
    requires Wanted(cfg, w, name)
  {
    && Wanted(cfg, w', name)
    && ItemsOf(cfg, w', name) == ItemsOf(cfg, w, name)
    && Owning(w', name) == Owning(w, name)
    && forall n :: n in Owning(w, name) ==>
         && w'.store.nodeImages[n].spec == w.store.nodeImages[n].spec
         && w'.store.nodeImages[n].status == w.store.nodeImages[n].status
  }

  lemma SameImagesSameSets(cfg: Config, w: World, w': World, name: string)
    requires Wanted(cfg, w, name) && SameFor(cfg, w, w', name) && w'.images == w.images
    ensures Missing(cfg, w', name) == Missing(cfg, w, name)
    ensures SameSets(w, w', name)
  {
    forall n | n in Owning(w, name)
      ensures Matching(w', n) == Matching(w, n) && (Settled(w', n) <==> Settled(w, n))
    {
    }
  }

  // ---------- the image service, the clock, new releases ----------

  lemma ForwardImproves(cfg: Config, w: World, w': World, name: string)
    requires Wanted(cfg, w, name) && Forward(w.images, w'.images) && w' == w.(images := w'.images)
    ensures Wanted(cfg, w', name) && NoWorse(cfg, w, w', name)
    ensures Imageless(w', name) == Imageless(w, name) && Owning(w', name) == Owning(w, name)
    ensures forall n :: n in w.store.nodeImages ==> Matching(w', n) == Matching(w, n) && (Settled(w, n) ==> Settled(w', n))
  {
    assert Owning(w', name) == Owning(w, name);
    forall n | n in w.store.nodeImages
      ensures Matching(w', n) == Matching(w, n) && (Settled(w, n) ==> Settled(w', n))
    {
      if Settled(w, n) {
        var i :| i in Matching(w, n) && w.images[i].status == Active;
        assert i in Matching(w', n) && w'.images[i].status == Active;
      }
    }
    forall p | p in Steps(w', name)
      ensures p in Steps(w, name)
    {
      var n, i, k :| n in Owning(w', name) && i in Matching(w', n) && 0 <= k < Distance(w'.images[i].status) && p == (i, k);
      assert i in Matching(w, n) && 0 <= k < Distance(w.images[i].status);
    }
  }

  lemma OutsideImproves(cfg: Config, w: World, s: OutsideStep, name: string)
    requires Wanted(cfg, w, name) && LegitOutside(cfg, w, s) && Benign(w, Outside(s))
    ensures var w' := ApplyOutside(cfg, w, s); Wanted(cfg, w', name) && NoWorse(cfg, w, w', name)
  {
    var w' := ApplyOutside(cfg, w, s);
    if s.Drift? {
      ForwardImproves(cfg, w, w', name);
    } else {
      assert Owning(w', name) == Owning(w, name);
      SameImagesSameSets(cfg, w, w', name);
    }
  }

  // ---------- visits ----------

  ghost predicate OnlyStatusOf(w: World, w': World, n: string) {
    && w'.downloaded == w.downloaded && w'.store.releases == w.store.releases && w'.tasks == w.tasks
    && w'.store.nodeImages.Keys == w.store.nodeImages.Keys
    && (forall k :: k in w.store.nodeImages ==>
          && w'.store.nodeImages[k].spec == w.store.nodeImages[k].spec
          && w'.store.nodeImages[k].owners == w.store.nodeImages[k].owners
          && (k != n ==> w'.store.nodeImages[k] == w.store.nodeImages[k]))
  }

  /** The visit made an image for an object that had none. */
  ghost predicate MadeFor(w: World, w': World, n: string, img: Image)
    requires n in w.store.nodeImages
  {
    var o := w.store.nodeImages[n].spec.opts;
    && o.name != "" && Matching(w, n) == {} && img.origin == o && IdFor(o, w.serial) !in w.images
    && w'.images == w.images[IdFor(o, w.serial) := img]
    && OnlyStatusOf(w, w', n)
  }

  /** The visit made no image, and did not unsettle its object. */
  ghost predicate LeftImages(w: World, w': World, n: string)
    requires n in w.store.nodeImages
  {
    && w'.images == w.images && OnlyStatusOf(w, w', n)
    && (Settled(w, n) ==> w'.store.nodeImages[n].status.ready)
  }

  lemma OwningIsKept(cfg: Config, w: World, w': World, n: string, name: string)
    requires Wanted(cfg, w, name) && OnlyStatusOf(w, w', n)
    ensures Wanted(cfg, w', name) && ItemsOf(cfg, w', name) == ItemsOf(cfg, w, name)
    ensures Owning(w', name) == Owning(w, name) && Missing(cfg, w', name) == Missing(cfg, w, name)
  {
  }

  /** An object whose lookup already found something does not find the new image. */
  lemma NewImageIsNew(cfg: Config, w: World, w': World, n: string, img: Image, m: string)
    requires Sound(cfg, w) && n in w.store.nodeImages && MadeFor(w, w', n, img) && m in w.store.nodeImages
    ensures Matching(w, m) <= Matching(w', m)
    ensures Matching(w, m) != {} ==> Matching(w', m) == Matching(w, m)
    ensures m == n ==> Matching(w', m) != {}
  {
    var a, b := w.store.nodeImages[n].spec.opts, w.store.nodeImages[m].spec.opts;
    var made := IdFor(a, w.serial);
    if Matching(w, m) != {} && made in Matching(w', m) {
      var j :| j in Matching(w, m);
      FindsIsSatisfies(w.images, cfg.specs, w.serial, b, j);
      FindsIsSatisfies(w.images, cfg.specs, w.serial, a, j);
      assert Satisfies(w.images[j].origin, b) && Satisfies(a, b);
    }
    if m == n {
      assert made in Matching(w', n);
    }
  }

  lemma MakingImproves(cfg: Config, w: World, w': World, n: string, img: Image, name: string)
    requires Sound(cfg, w) && Wanted(cfg, w, name) && n in w.store.nodeImages && MadeFor(w, w', n, img)
    ensures Wanted(cfg, w', name) && NoWorse(cfg, w, w', name)
    ensures n in Owning(w, name) ==> Imageless(w', name) != Imageless(w, name)
  {
    OwningIsKept(cfg, w, w', n, name);
    forall m | m in Owning(w, name)
      ensures Matching(w, m) <= Matching(w', m) && (Matching(w, m) != {} ==> Matching(w', m) == Matching(w, m))
      ensures m == n ==> Matching(w', m) != {}
    {
      NewImageIsNew(cfg, w, w', n, img, m);
    }
    if n in Owning(w, name) {
      assert n in Imageless(w, name) && n !in Imageless(w', name);
    } else if Imageless(w', name) == Imageless(w, name) {
      forall m | m in Owning(w, name)
        ensures Matching(w', m) == Matching(w, m) && (Settled(w', m) <==> Settled(w, m))
      {
        assert Matching(w, m) == {} ==> m in Imageless(w, name);
      }
    }
  }

  lemma LeavingImproves(cfg: Config, w: World, w': World, n: string, name: string)
    requires Wanted(cfg, w, name) && n in w.store.nodeImages && LeftImages(w, w', n)
    ensures Wanted(cfg, w', name) && NoWorse(cfg, w, w', name)
  {
    OwningIsKept(cfg, w, w', n, name);
    forall m | m in Owning(w, name)
      ensures Matching(w', m) == Matching(w, m) && (Settled(w, m) ==> Settled(w', m))
    {
    }
  }

  /** A visit, as a step from the state in which the images have drifted already. */
  lemma VisitAfterDrift(cfg: Config, w: World, v: Visit)
    requires LegitVisit(w, v) && v.between.Keys == w.images.Keys
    ensures LegitVisit(w.(images := v.between), v)
    ensures ApplyVisit(cfg, w.(images := v.between), v) == ApplyVisit(cfg, w, v)
  {
    assert Lookup(v.between, w.store.nodeImages[v.name].spec.opts) == Lookup(w.images, w.store.nodeImages[v.name].spec.opts);
  }

  lemma VisitTouchesStatus(cfg: Config, w: World, v: Visit)
    requires LegitVisit(w, v)
    ensures OnlyStatusOf(w, ApplyVisit(cfg, w, v), v.name)
  {
    var w' := ApplyVisit(cfg, w, v);
    forall k | k in w.store.nodeImages
      ensures && k in w'.store.nodeImages
              && w'.store.nodeImages[k].spec == w.store.nodeImages[k].spec
              && w'.store.nodeImages[k].owners == w.store.nodeImages[k].owners
              && (k != v.name ==> w'.store.nodeImages[k] == w.store.nodeImages[k])
    {
      VisitFrame(cfg, w, v, k);
    }
  }

  /** A visit of an object whose image is active does not take its flag back. */
  lemma ActiveIsNotRefused(cfg: Config, w: World, v: Visit)
    requires Sound(cfg, w) && LegitVisit(w, v) && v.between == w.images && Settled(w, v.name)
    ensures !N.Refusing(VisitExit(cfg, w, v))
  {
    var id :| id in Matching(w, v.name) && w.images[id].status == Active;
    if v.answers.listing.Listed? {
      assert id in v.answers.listing.ids;
      assert Unambiguous(w.images, cfg.specs) && w.store.nodeImages[v.name].spec.opts in cfg.specs;
      assert v.answers.listing.ids[0] in Matching(w, v.name);
      assert v.answers.listing.ids[0] == id;
    }
  }

  /** A visit either makes the missing image or leaves the images alone. */
  lemma VisitEffect(cfg: Config, w: World, v: Visit)
    requires Sound(cfg, w) && LegitVisit(w, v) && v.between == w.images
    ensures var w', e := ApplyVisit(cfg, w, v), VisitExit(cfg, w, v);
            if Made(e, v, IdFor(w.store.nodeImages[v.name].spec.opts, w.serial)).Some? then
              MadeFor(w, w', v.name, MadeImage(w.store.nodeImages[v.name].spec.opts, e, v))
            else LeftImages(w, w', v.name)
  {
    VisitTouchesStatus(cfg, w, v);
    MakesOnlyWhatIsMissing(cfg, w, v);
    VisitFrame(cfg, w, v, v.name);
    if Settled(w, v.name) {
      ActiveIsNotRefused(cfg, w, v);
    }
  }

  lemma SettledVisitImproves(cfg: Config, w: World, v: Visit, name: string)
    requires Sound(cfg, w) && Wanted(cfg, w, name) && LegitVisit(w, v) && v.between == w.images
    ensures var w' := ApplyVisit(cfg, w, v); Wanted(cfg, w', name) && NoWorse(cfg, w, w', name)
  {
    var w', e, o := ApplyVisit(cfg, w, v), VisitExit(cfg, w, v), w.store.nodeImages[v.name].spec.opts;
    VisitEffect(cfg, w, v);
    if Made(e, v, IdFor(o, w.serial)).Some? {
      MakingImproves(cfg, w, w', v.name, MadeImage(o, e, v), name);
    } else {
      LeavingImproves(cfg, w, w', v.name, name);
    }
  }

  lemma DriftKeepsSound(cfg: Config, w: World, images: Images)
    requires Sound(cfg, w) && Drifts(w.images, images)
    ensures Sound(cfg, w.(images := images))
  {
    StepKeepsInv(cfg, w, Outside(Drift(images)));
  }

  // ---------- calls of reconciliations in flight ----------

  /** The items of one tag have the same names, whatever the release. */
  lemma SameTagSameNames(r: StackRelease, q: StackRelease, a: Assets)
    requires r.identity.name == q.identity.name && Items(r, a).Ok?
    ensures Items(q, a).Ok? && NamesOf(Items(q, a).value) == NamesOf(Items(r, a).value)
  {
    var x, y := Items(r, a).value, Items(q, a).value;
    assert |x| == |y| && forall i :: 0 <= i < |x| ==> x[i].name == y[i].name;
  }

  /** Nothing but statuses of releases differs, and flags only for n. */
  ghost predicate OnlyPatches(before: map<string, StackRelease>, after: map<string, StackRelease>, n: string, ready: bool) {
    && after.Keys == before.Keys
    && forall k :: k in before ==>
         && after[k] == before[k].(status := after[k].status)
         && after[k].status.ready == if k == n then ready else before[k].status.ready
  }

  function FlagOf(w: World, n: string): bool {
    n in w.store.releases && w.store.releases[n].status.ready
  }

  lemma PatchEffect(w: World, n: string, e: Exit, kept: bool)
    requires n in w.tasks && Keepable(w, n, kept)
    ensures OnlyPatches(w.store.releases, Patched(w, n, e, kept).releases, n,
                        if kept && e == ReadyNow then true else if kept && e == NotReadyYet then false else FlagOf(w, n))
  {
  }

  /** What a call of a reconciliation does besides writing objects: a flag changes only at the end. */
  ghost predicate Quiet(w: World, w': World, n: string, ready: bool) {
    w'.images == w.images && w.downloaded <= w'.downloaded && OnlyPatches(w.store.releases, w'.store.releases, n, ready)
  }

  lemma FinishPatches(cfg: Config, w: World, n: string, kept: bool)
    requires LegitStack(cfg, w, n, Finish(kept))
    ensures Quiet(w, ApplyStack(cfg, w, n, Finish(kept)), n, if kept then AllReady(w.store, w.tasks[n].release.identity) else FlagOf(w, n))
  {
    PatchEffect(w, n, Judgement(w, n), kept);
  }

  lemma WritePatches(cfg: Config, w: World, n: string, answer: WriteAnswer, kept: bool)
    requires LegitStack(cfg, w, n, Write(answer, kept))
    ensures Quiet(w, ApplyStack(cfg, w, n, Write(answer, kept)), n, FlagOf(w, n))
  {
    var v := if answer == Rejected(true) then Written(w, n) else w;
    assert v.store.releases == w.store.releases;
    PatchEffect(v, n, WriteFailed, kept);
  }

  lemma StackPatches(cfg: Config, w: World, n: string, s: StackStep)
    requires LegitStack(cfg, w, n, s) && !s.Finish?
    ensures Quiet(w, ApplyStack(cfg, w, n, s), n, FlagOf(w, n))
  {
    match s {
      case Write(answer, kept) => WritePatches(cfg, w, n, answer, kept);
      case Stop(kept) => PatchEffect(w, n, ListFailed, kept);
      case _ =>
    }
  }

  /** A call of a reconciliation never clears the flag of a release all of whose objects are ready. */
  lemma FlagIsKept(cfg: Config, w: World, n: string, s: StackStep, name: string)
    requires LegitStack(cfg, w, n, s) && name in w.store.releases
    ensures exists ready :: Quiet(w, ApplyStack(cfg, w, n, s), n, ready)
    ensures AllReady(w.store, w.store.releases[name].identity) && FlagOf(w, name) ==> FlagOf(ApplyStack(cfg, w, n, s), name)
  {
    if s.Finish? {
      FinishPatches(cfg, w, n, s.kept);
    } else {
      StackPatches(cfg, w, n, s);
    }
  }

  /** The writes of a state: the release owns what it did and at most missing items more. */
  ghost predicate Gains(cfg: Config, w: World, w': World, name: string)
    requires Wanted(cfg, w, name)
  {
    && name in w'.store.releases
    && Owning(w, name) <= Owning(w', name) <= Owning(w, name) + Missing(cfg, w, name)
    && forall k :: k in Owning(w, name) ==>
         && w'.store.nodeImages[k].spec == w.store.nodeImages[k].spec
         && w'.store.nodeImages[k].status == w.store.nodeImages[k].status
  }

  lemma NothingGained(cfg: Config, w: World, w': World, name: string)
    requires Wanted(cfg, w, name) && name in w'.store.releases
    requires w'.store.releases[name].identity == w.store.releases[name].identity
    requires w'.store.nodeImages == w.store.nodeImages
    ensures Gains(cfg, w, w', name)
  {
  }

  /** Objects were written by which the release gained at most missing ones. */
  lemma AdoptedGains(cfg: Config, w: World, w': World, t: Store, n: string, owner: Identity, name: string)
    requires Wanted(cfg, w, name) && name in w'.store.releases
    requires w'.store.releases[name].identity == w.store.releases[name].identity
    requires Adopts(w.store, t, n, owner) && w'.store.nodeImages == t.nodeImages
    requires forall k :: Owns(t, w.store.releases[name].identity, k) ==> k in Owning(w, name) || k in Missing(cfg, w, name)
    ensures Gains(cfg, w, w', name)
  {
    forall k
      ensures k in Owning(w', name) <==> Owns(t, w.store.releases[name].identity, k)
      ensures k in Owning(w, name) <==> Owns(w.store, w.store.releases[name].identity, k)
    {
    }
  }

  lemma MissingGained(cfg: Config, w: World, w': World, n: string, name: string)
    requires Sound(cfg, w) && Wanted(cfg, w, name) && name in w'.store.releases
    requires w'.store.releases[name].identity == w.store.releases[name].identity
    requires n in w.tasks && w.tasks[n].done < |w.tasks[n].items| && WriteAccepted(w, w.tasks[n])
    requires w'.store.nodeImages == WriteOf(w.store, w.tasks[n]).nodeImages
    ensures Gains(cfg, w, w', name)
  {
    var t := w.tasks[n];
    WriteAdopts(w, n);
    WriteGains(cfg, w, n, name);
    AdoptedGains(cfg, w, w', WriteOf(w.store, t), t.items[t.done].name, t.release.identity, name);
  }

  lemma OnlyMissingIsGained(cfg: Config, w: World, n: string, s: StackStep, name: string)
    requires Sound(cfg, w) && Wanted(cfg, w, name) && LegitStack(cfg, w, n, s)
    ensures Gains(cfg, w, ApplyStack(cfg, w, n, s), name)
  {
    var w' := ApplyStack(cfg, w, n, s);
    StackFrame(cfg, w, n, s);
    FlagIsKept(cfg, w, n, s, name);
    if s.Write? && s.answer != Rejected(false) {
      MissingGained(cfg, w, w', n, name);
    } else {
      NothingGained(cfg, w, w', name);
    }
  }

  lemma WriteGains(cfg: Config, w: World, n: string, name: string)
    requires Sound(cfg, w) && Wanted(cfg, w, name)
    requires n in w.tasks && w.tasks[n].done < |w.tasks[n].items| && WriteAccepted(w, w.tasks[n])
    ensures forall k :: Owns(WriteOf(w.store, w.tasks[n]), w.store.releases[name].identity, k) ==>
              k in Owning(w, name) || k in Missing(cfg, w, name)
  {
    var t, p := w.tasks[n], w.store.releases[name].identity;
    WriteAdopts(w, n);
    forall k | Owns(WriteOf(w.store, t), p, k) && !Owns(w.store, p, k)
      ensures k in Missing(cfg, w, name)
    {
      AdoptionGains(w.store, WriteOf(w.store, t), t.items[t.done].name, t.release.identity, p, k);
      SameTagSameNames(t.release, w.store.releases[name], cfg.catalog[name]);
      assert k in NamesOf(t.items);
    }
  }

  /** If nothing is left to do for the owned objects, a judgement says ready. */
  lemma SettledIsJudgedReady(cfg: Config, w: World, name: string)
    requires Wanted(cfg, w, name) && Missing(cfg, w, name) == {} && Unsettled(w, name) == {}
    ensures AllReady(w.store, w.store.releases[name].identity)
  {
    var items := ItemsOf(cfg, w, name);
    assert items[0].name in NamesOf(items) && items[0].name !in Missing(cfg, w, name);
    assert Owns(w.store, w.store.releases[name].identity, items[0].name);
    forall n | Owns(w.store, w.store.releases[name].identity, n)
      ensures w.store.nodeImages[n].status.ready
    {
      assert n !in Unsettled(w, name) && n in Owning(w, name);
    }
  }

  lemma GainsImprove(cfg: Config, w: World, w': World, name: string)
    requires Wanted(cfg, w, name) && Wanted(cfg, w', name) && ItemsOf(cfg, w', name) == ItemsOf(cfg, w, name)
    requires Gains(cfg, w, w', name) && w'.images == w.images && w.downloaded <= w'.downloaded
    requires AllReady(w.store, w.store.releases[name].identity) && FlagOf(w, name) ==> FlagOf(w', name)
    ensures NoWorse(cfg, w, w', name)
  {
    if Missing(cfg, w', name) == Missing(cfg, w, name) {
      assert Owning(w', name) == Owning(w, name) by {
        forall k | k in Owning(w', name)
          ensures k in Owning(w, name)
        {
          assert k !in Missing(cfg, w', name);
        }
      }
      SameImagesSameSets(cfg, w, w', name);
      if Finished(cfg, w, name) {
        SettledIsJudgedReady(cfg, w, name);
      }
    }
  }

  lemma StackImproves(cfg: Config, w: World, n: string, s: StackStep, name: string)
    requires Sound(cfg, w) && Wanted(cfg, w, name) && LegitStack(cfg, w, n, s)
    ensures var w' := ApplyStack(cfg, w, n, s); Wanted(cfg, w', name) && NoWorse(cfg, w, w', name)
  {
    FlagIsKept(cfg, w, n, s, name);
    OnlyMissingIsGained(cfg, w, n, s, name);
    GainsImprove(cfg, w, ApplyStack(cfg, w, n, s), name);
  }

  // ---------- the theorem ----------

  lemma AtMostTwice(cfg: Config, w: World, w1: World, w2: World, name: string)
    requires Wanted(cfg, w, name) && Wanted(cfg, w1, name) && Wanted(cfg, w2, name)
    requires NoWorse(cfg, w, w1, name) && NoWorse(cfg, w1, w2, name)
    ensures AtMost(RankOf(cfg, w2, name), RankOf(cfg, w, name))
  {
    NoWorseRank(cfg, w, w1, name);
    NoWorseRank(cfg, w1, w2, name);
    Ordered(RankOf(cfg, w2, name), RankOf(cfg, w1, name), RankOf(cfg, w, name));
  }

  lemma VisitNeverRaises(cfg: Config, w: World, v: Visit, name: string)
    requires Sound(cfg, w) && Wanted(cfg, w, name) && LegitVisit(w, v) && Forward(w.images, v.between)
    ensures var w' := ApplyVisit(cfg, w, v);
            Wanted(cfg, w', name) && AtMost(RankOf(cfg, w', name), RankOf(cfg, w, name))
  {
    var w1 := w.(images := v.between);
    ForwardImproves(cfg, w, w1, name);
    DriftKeepsSound(cfg, w, v.between);
    VisitAfterDrift(cfg, w, v);
    SettledVisitImproves(cfg, w1, v, name);
    AtMostTwice(cfg, w, w1, ApplyVisit(cfg, w, v), name);
  }

  /** No event of either controller raises the rank of a release, whatever fails and whatever is in flight, nor does
      the image service on its way, the clock or a new release. */
  lemma RankNeverRises(cfg: Config, w: World, e: Event, name: string)
    requires Sound(cfg, w) && Wanted(cfg, w, name) && Legit(cfg, w, e) && Benign(w, e)
    ensures var w' := Apply(cfg, w, e);
            Wanted(cfg, w', name) && AtMost(RankOf(cfg, w', name), RankOf(cfg, w, name))
  {
    match e {
      case Outside(s) =>
        OutsideImproves(cfg, w, s, name);
        NoWorseRank(cfg, w, ApplyOutside(cfg, w, s), name);
      case NodeVisit(v) => VisitNeverRaises(cfg, w, v, name);
      case Stack(n, s) =>
        StackImproves(cfg, w, n, s, name);
        NoWorseRank(cfg, w, ApplyStack(cfg, w, n, s), name);
    }
  }

  // ---------- finished releases ----------

  /** The image found for a settled object is the only one, so every image found for it is active. */
  lemma SettledFindsActive(cfg: Config, w: World, n: string)
    requires Sound(cfg, w) && n in w.store.nodeImages && Settled(w, n)
    ensures Matching(w, n) != {} && forall id :: id in Matching(w, n) ==> w.images[id].status == Active
  {
    assert Unambiguous(w.images, cfg.specs) && w.store.nodeImages[n].spec.opts in cfg.specs;
  }

  lemma ActiveLeavesNoSteps(w: World, name: string)
    requires name in w.store.releases
    requires forall n :: n in Owning(w, name) ==>
               Matching(w, n) != {} && forall id :: id in Matching(w, n) ==> w.images[id].status == Active
    ensures Imageless(w, name) == {} && Steps(w, name) == {}
  {
  }

  /** A release is finished exactly if its rank is zero. */
  lemma FinishedIsZero(cfg: Config, w: World, name: string)
    requires Sound(cfg, w) && Wanted(cfg, w, name)
    ensures Finished(cfg, w, name) <==> RankOf(cfg, w, name) == ZERO
  {
    if Finished(cfg, w, name) {
      forall n | n in Owning(w, name)
        ensures Matching(w, n) != {} && forall id :: id in Matching(w, n) ==> w.images[id].status == Active
      {
        assert n !in Unsettled(w, name);
        SettledFindsActive(cfg, w, n);
      }
      ActiveLeavesNoSteps(w, name);
    }
  }

  /** Nothing that happens makes a finished release unready again. */
  lemma FinishedStays(cfg: Config, w: World, e: Event, name: string)
    requires Sound(cfg, w) && Wanted(cfg, w, name) && Finished(cfg, w, name) && Legit(cfg, w, e) && Benign(w, e)
    ensures var w' := Apply(cfg, w, e);
            Sound(cfg, w') && Wanted(cfg, w', name) && Finished(cfg, w', name)
  {
    var w' := Apply(cfg, w, e);
    FinishedIsZero(cfg, w, name);
    RankNeverRises(cfg, w, e, name);
    ZeroIsLeast(RankOf(cfg, w', name));
    StepKeepsInv(cfg, w, e);
    FinishedIsZero(cfg, w', name);
  }
}
