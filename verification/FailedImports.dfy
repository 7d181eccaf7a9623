/** Over every run: an image whose import was refused keeps its object, and every release that owns the object,
    from becoming ready, until somebody removes the image or the object. */
module FailedImports {
  import opened Glance
  import opened StackReconciler
  import opened Protocol
  import opened Invariants
  import opened ImportTheorems
  import N = NodeImageReconciler

  /** The object's lookup finds an image without data that is not active. */
  ghost predicate Empty(w: World, name: string, id: ImageId) {
    && name in w.store.nodeImages
    && id in Lookup(w.images, w.store.nodeImages[name].spec.opts)
    && !w.images[id].fed && w.images[id].status != Active
  }

  /** The image service keeps the image, and activates only images with data. */
  ghost predicate Faithful(before: Images, after: Images, id: ImageId) {
    && id in after
    && forall i :: i in before && i in after && after[i].status == Active && before[i].status != Active ==> after[i].fed
  }

  /** Nobody removes the image or the object. */
  ghost predicate Untouched(w: World, e: Event, name: string, id: ImageId) {
    match e
    case Outside(Drift(images)) => Faithful(w.images, images, id)
    case Outside(DropNode(n)) => n != name
    case NodeVisit(v) => Faithful(w.images, v.between, id)
    case _ => true
  }

  function Ready(w: World, name: string): bool {
    name in w.store.nodeImages && w.store.nodeImages[name].status.ready
  }

  /** An import that was refused and did not happen leaves an empty image. The flag stays only if it was set and
      the patch was lost. */
  lemma RefusedImportLeavesEmpty(cfg: Config, w: World, v: Visit)
    requires WellFormed(cfg) && Inv(cfg, w) && LegitVisit(w, v) && VisitExit(cfg, w, v).NotImported? && !v.unanswered
    requires !w.store.nodeImages[v.name].spec.opts.hidden
    ensures Empty(ApplyVisit(cfg, w, v), v.name, VisitExit(cfg, w, v).id)
    ensures Ready(ApplyVisit(cfg, w, v), v.name) <==> Ready(w, v.name) && !v.kept
  {
    VisitFrame(cfg, w, v, v.name);
    var w' := ApplyVisit(cfg, w, v);
    VisitKeepsImages(cfg, w, v);
    FindsIsSatisfies(w'.images, cfg.specs, w'.serial, w.store.nodeImages[v.name].spec.opts, VisitExit(cfg, w, v).id);
  }

  // ---------- what a visit does ----------

  lemma OnlyListing(cfg: Config, w: World, v: Visit, id: ImageId)
    requires Inv(cfg, w) && Compatible(cfg.specs) && LegitVisit(w, v) && v.answers.listing.Listed?
    requires id in Lookup(w.images, w.store.nodeImages[v.name].spec.opts)
    ensures v.answers.listing.ids == [id]
  {
    ListingSize(v.answers.listing.ids, Lookup(w.images, w.store.nodeImages[v.name].spec.opts));
    assert id in v.answers.listing.ids;
  }

  /** A visit of the object neither creates nor sees an active image. It takes the flag back exactly when it gets
      the status of the image and does not time out. */
  lemma EmptyVisit(cfg: Config, w: World, v: Visit, id: ImageId)
    requires Inv(cfg, w) && Compatible(cfg.specs) && LegitVisit(w, v)
    requires Empty(w, v.name, id) && Faithful(w.images, v.between, id)
    ensures var e := VisitExit(cfg, w, v);
            && !N.Creating(e) && !e.SawActive?
            && (N.Refusing(e) <==> v.answers.fetch.Fetched? && Reads(v, v.answers.fetch.status) && !e.TimedOut?)
  {
    if v.answers.listing.Listed? {
      OnlyListing(cfg, w, v, id);
      FindingVisit(cfg, w, v, id);
    }
  }

  lemma FindingVisit(cfg: Config, w: World, v: Visit, id: ImageId)
    requires LegitVisit(w, v) && v.answers.listing.Listed? && v.answers.listing.ids == [id]
    requires Empty(w, v.name, id) && Faithful(w.images, v.between, id)
    ensures var e := VisitExit(cfg, w, v);
            && !N.Creating(e) && !e.SawActive?
            && (N.Refusing(e) <==> v.answers.fetch.Fetched? && Reads(v, v.answers.fetch.status) && !e.TimedOut?)
  {
  }

  /** A stored visit between the two states took the flag back. */
  ghost predicate ClearedBetween(w: World, w': World, name: string) {
    exists i :: |w.log| <= i < |w'.log| && Clears(w'.log[i], name)
  }

  predicate Clears(x: Entry, name: string) {
    x.name == name && x.Visited? && N.Refusing(x.exit)
  }

  lemma VisitKeepsEmpty(cfg: Config, w: World, v: Visit, name: string, id: ImageId)
    requires Inv(cfg, w) && Compatible(cfg.specs) && LegitVisit(w, v)
    requires Empty(w, name, id) && Faithful(w.images, v.between, id)
    ensures Empty(ApplyVisit(cfg, w, v), name, id)
  {
    VisitFrame(cfg, w, v, name);
    MakesOnlyWhatIsMissing(cfg, w, v);
    var w' := ApplyVisit(cfg, w, v);
    assert w'.images[id] == v.between[id];
  }

  lemma VisitClears(cfg: Config, w: World, v: Visit, name: string, id: ImageId)
    requires Inv(cfg, w) && Compatible(cfg.specs) && LegitVisit(w, v)
    requires Empty(w, name, id) && Faithful(w.images, v.between, id)
    ensures var w' := ApplyVisit(cfg, w, v); Ready(w', name) <==> Ready(w, name) && !ClearedBetween(w, w', name)
  {
    VisitFrame(cfg, w, v, name);
    var w' := ApplyVisit(cfg, w, v);
    if v.name == name {
      EmptyVisit(cfg, w, v, id);
    }
    if v.kept {
      assert w'.log[|w.log|].name == v.name;
      assert Clears(w'.log[|w.log|], name) ==> ClearedBetween(w, w', name);
    }
  }

  lemma OutsideKeepsEmpty(cfg: Config, w: World, s: OutsideStep, name: string, id: ImageId)
    requires LegitOutside(cfg, w, s) && Empty(w, name, id) && Untouched(w, Outside(s), name, id)
    ensures var w' := ApplyOutside(cfg, w, s);
            Empty(w', name, id) && Ready(w', name) == Ready(w, name) && !ClearedBetween(w, w', name)
  {
    OutsideFrame(cfg, w, s, name);
  }

  lemma StackKeepsEmpty(cfg: Config, w: World, n: string, s: StackStep, name: string, id: ImageId)
    requires TasksInRange(w) && Versioned(w) && LegitStack(cfg, w, n, s) && Empty(w, name, id)
    ensures var w' := ApplyStack(cfg, w, n, s);
            Empty(w', name, id) && Ready(w', name) == Ready(w, name) && !ClearedBetween(w, w', name)
  {
    StackFrame(cfg, w, n, s);
    if s.Write? && s.answer != Rejected(false) {
      WriteAdopts(w, n);
    }
  }

  lemma StepKeepsEmpty(cfg: Config, w: World, e: Event, name: string, id: ImageId)
    requires Inv(cfg, w) && Compatible(cfg.specs) && Legit(cfg, w, e)
    requires Empty(w, name, id) && Untouched(w, e, name, id)
    ensures var w' := Apply(cfg, w, e);
            && Empty(w', name, id) && w.log <= w'.log
            && (Ready(w', name) <==> Ready(w, name) && !ClearedBetween(w, w', name))
  {
    StepGrowsLog(cfg, w, e);
    match e {
      case Outside(s) => OutsideKeepsEmpty(cfg, w, s, name, id);
      case NodeVisit(v) =>
        VisitKeepsEmpty(cfg, w, v, name, id);
        VisitClears(cfg, w, v, name, id);
      case Stack(n, s) => StackKeepsEmpty(cfg, w, n, s, name, id);
    }
  }

  // ---------- over runs ----------

  ghost predicate AllUntouched(cfg: Config, w: World, es: seq<Event>, name: string, id: ImageId)
    requires Possible(cfg, w, es)
    decreases |es|
  {
    es == [] || (Untouched(w, es[0], name, id) && AllUntouched(cfg, Apply(cfg, w, es[0]), es[1..], name, id))
  }

  lemma ClearedSomewhere(w: World, w1: World, w2: World, name: string)
    requires w.log <= w1.log <= w2.log
    ensures ClearedBetween(w, w2, name) <==> ClearedBetween(w, w1, name) || ClearedBetween(w1, w2, name)
  {
    if i :| |w.log| <= i < |w1.log| && Clears(w1.log[i], name) {
      assert w2.log[i] == w1.log[i];
    }
    if i :| |w.log| <= i < |w2.log| && Clears(w2.log[i], name) {
      assert i < |w1.log| ==> w2.log[i] == w1.log[i];
    }
  }

  /** The empty image stays, and the flag never comes back: it is left exactly if it was set and no stored visit
      took it back. */
  lemma {:induction false} RunKeepsEmpty(cfg: Config, w: World, es: seq<Event>, name: string, id: ImageId)
    requires WellFormed(cfg) && Inv(cfg, w) && Compatible(cfg.specs) && Possible(cfg, w, es)
    requires Empty(w, name, id) && AllUntouched(cfg, w, es, name, id)
    ensures var w' := Execute(cfg, w, es);
            && Empty(w', name, id) && w.log <= w'.log
            && (Ready(w', name) <==> Ready(w, name) && !ClearedBetween(w, w', name))
    decreases |es|
  {
    if es != [] {
      var w1 := Apply(cfg, w, es[0]);
      StepKeepsEmpty(cfg, w, es[0], name, id);
      StepKeepsInv(cfg, w, es[0]);
      RunKeepsEmpty(cfg, w1, es[1..], name, id);
      ClearedSomewhere(w, w1, Execute(cfg, w1, es[1..]), name);
    }
  }

  /** After a refused import no run, however long and however often it reconciles, makes the object ready: it is
      ready at the end exactly if it was before, the patch of the refusal was lost, and no stored visit has taken
      the flag back since. And no reconciliation of a release that owns the object sets that release ready while
      the object is not. */
  lemma RefusedImportBlocks(cfg: Config, w: World, v: Visit, es: seq<Event>, release: string, kept: bool)
    requires WellFormed(cfg) && Inv(cfg, w) && Compatible(cfg.specs) && LegitVisit(w, v)
    requires VisitExit(cfg, w, v).NotImported? && !v.unanswered && !w.store.nodeImages[v.name].spec.opts.hidden
    requires Possible(cfg, ApplyVisit(cfg, w, v), es)
    requires AllUntouched(cfg, ApplyVisit(cfg, w, v), es, v.name, VisitExit(cfg, w, v).id)
    ensures var w1, w' := ApplyVisit(cfg, w, v), Execute(cfg, ApplyVisit(cfg, w, v), es);
            && v.name in w'.store.nodeImages
            && (Ready(w', v.name) <==> Ready(w, v.name) && !v.kept && !ClearedBetween(w1, w', v.name))
            && (!Ready(w', v.name) && LegitStack(cfg, w', release, Finish(kept))
                ==> Owns(w'.store, w'.tasks[release].release.identity, v.name) ==> Judgement(w', release) == NotReadyYet)
  {
    RefusedImportLeavesEmpty(cfg, w, v);
    StepKeepsInv(cfg, w, NodeVisit(v));
    RunKeepsEmpty(cfg, ApplyVisit(cfg, w, v), es, v.name, VisitExit(cfg, w, v).id);
  }
}
