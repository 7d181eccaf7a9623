/** Over every run: imports, import starts and timeouts. */
module ImportTheorems {
  import opened Wrappers
  import opened Glance
  import opened Cluster
  import opened Protocol
  import opened Invariants
  import opened ImageTheorems
  import N = NodeImageReconciler

  /** Each image ID is imported at most as often as it was created: every import call names an image that the
      same visit created. */
  lemma ImportsNeverExceedCreates(cfg: Config, w: World, id: ImageId)
    requires WellFormed(cfg) && Reachable(cfg, w)
    ensures w.imported[id] <= w.created[id]
  {
    ReachableMeetsInv(cfg, w);
  }

  lemma ImportsWhatItCreated(cfg: Config, w: World, v: Visit, url: string)
    requires LegitVisit(w, v)
    ensures var spec, e := w.store.nodeImages[v.name].spec, VisitExit(cfg, w, v);
            forall id, i :: 0 <= i < |N.CallsOf(e, spec)| && N.CallsOf(e, spec)[i] == N.ImportImage(id, url) ==>
              && i == 2 && url == spec.url && N.CallsOf(e, spec)[1] == N.CreateImage(spec.opts)
              && id == IdFor(spec.opts, w.serial) && id !in v.between && id in ApplyVisit(cfg, w, v).images
  {
  }

  // ---------- the recorded import start ----------

  /** The entry leaves the import start of the object alone: no creation, no deletion, no stored visit that creates. */
  predicate Follows(x: Entry, name: string) {
    x.name == name ==> x.Visited? && !N.Creating(x.exit)
  }

  ghost predicate Grows(w: World, w': World) {
    w.log <= w'.log && w.now <= w'.now
  }

  lemma OutsideGrowsLog(cfg: Config, w: World, s: OutsideStep)
    requires LegitOutside(cfg, w, s)
    ensures Grows(w, ApplyOutside(cfg, w, s))
  {
  }

  lemma StackGrowsLog(cfg: Config, w: World, name: string, s: StackStep)
    requires LegitStack(cfg, w, name, s)
    ensures Grows(w, ApplyStack(cfg, w, name, s))
  {
  }

  lemma StepGrowsLog(cfg: Config, w: World, e: Event)
    requires Legit(cfg, w, e)
    ensures Grows(w, Apply(cfg, w, e))
  {
    match e {
      case Outside(s) => OutsideGrowsLog(cfg, w, s);
      case NodeVisit(v) => assert w.log <= ApplyVisit(cfg, w, v).log;
      case Stack(name, s) => StackGrowsLog(cfg, w, name, s);
    }
  }

  lemma {:induction false} LogOnlyGrows(cfg: Config, w: World, es: seq<Event>)
    requires Possible(cfg, w, es)
    ensures Grows(w, Execute(cfg, w, es))
    decreases |es|
  {
    if es != [] {
      StepGrowsLog(cfg, w, es[0]);
      LogOnlyGrows(cfg, Apply(cfg, w, es[0]), es[1..]);
    }
  }

  /** The history of w' continues that of w without touching the import start of the object. */
  ghost predicate FollowedBy(w: World, w': World, name: string) {
    w.log <= w'.log && forall i :: |w.log| <= i < |w'.log| ==> Follows(w'.log[i], name)
  }

  lemma StepKeepsImportStart(cfg: Config, w: World, e: Event, name: string)
    requires Legit(cfg, w, e) && name in w.store.nodeImages
    requires TasksInRange(w) && Versioned(w)
    ensures var w' := Apply(cfg, w, e);
            FollowedBy(w, w', name) ==>
              && name in w'.store.nodeImages
              && w'.store.nodeImages[name].status.importStarted == w.store.nodeImages[name].status.importStarted
  {
    var w' := Apply(cfg, w, e);
    match e {
      case Outside(s) =>
        OutsideFrame(cfg, w, s, name);
        if s.DropNode? && s.node == name {
          assert !Follows(w'.log[|w.log|], name);
        }
      case NodeVisit(v) =>
        VisitFrame(cfg, w, v, name);
        if name == v.name && v.kept {
          assert w'.log[|w.log|] == Visited(name, VisitExit(cfg, w, v), w.store.nodeImages[name].spec.opts, v.between);
        }
      case Stack(n, s) =>
        StackFrame(cfg, w, n, s);
        if s.Write? && s.answer != Rejected(false) {
          WriteAdopts(w, n);
        }
    }
  }

  /** Between stored visits that create, the recorded import start of an object never changes. */
  lemma {:induction false} RunKeepsImportStart(cfg: Config, w: World, es: seq<Event>, name: string)
    requires WellFormed(cfg) && Inv(cfg, w) && Possible(cfg, w, es) && name in w.store.nodeImages
    requires FollowedBy(w, Execute(cfg, w, es), name)
    ensures var w' := Execute(cfg, w, es);
            && name in w'.store.nodeImages
            && w'.store.nodeImages[name].status.importStarted == w.store.nodeImages[name].status.importStarted
    decreases |es|
  {
    if es != [] {
      var w1, w' := Apply(cfg, w, es[0]), Execute(cfg, w, es);
      StepGrowsLog(cfg, w, es[0]);
      LogOnlyGrows(cfg, w1, es[1..]);
      forall i | |w.log| <= i < |w1.log|
        ensures Follows(w1.log[i], name)
      {
        assert w1.log[i] == w'.log[i];
      }
      StepKeepsImportStart(cfg, w, es[0], name);
      StepKeepsInv(cfg, w, es[0]);
      RunKeepsImportStart(cfg, w1, es[1..], name);
    }
  }

  // ---------- timeouts ----------

  /** A visit that found an image and got its status. */
  predicate Reads(v: Visit, status: ImageStatus) {
    && v.answers.cloud == N.CloudFound && v.answers.authenticated && v.answers.service
    && v.answers.listing.Listed? && |v.answers.listing.ids| == 1
    && v.answers.fetch == N.Fetched(status)
  }

  /** A visit reports a timeout exactly when it reads a status other than active and the recorded import start
      is too long ago; in particular never without a positive timeout or without a started import. */
  lemma TimesOutIff(cfg: Config, w: World, v: Visit)
    requires LegitVisit(w, v)
    ensures var c := w.store.nodeImages[v.name].status.importStarted;
            VisitExit(cfg, w, v).TimedOut? <==>
              && (exists s :: Reads(v, s) && s != Active)
              && cfg.timeout > 0 && c.IsTrue() && w.now - c.since > cfg.timeout * 60
  {
    if v.answers.fetch.Fetched? {
      assert Reads(v, v.answers.fetch.status) || !exists s :: Reads(v, s);
    }
  }

  function StartOf(w: World, name: string): Condition {
    if name in w.store.nodeImages then w.store.nodeImages[name].status.importStarted else Unset
  }

  lemma StartAfterVisit(cfg: Config, w: World, v: Visit)
    requires LegitVisit(w, v)
    ensures var e, w1 := VisitExit(cfg, w, v), ApplyVisit(cfg, w, v);
            && w1.now == w.now && v.name in w1.store.nodeImages
            && (!N.Creating(e) ==> StartOf(w1, v.name) == StartOf(w, v.name))
            && (v.kept && e.NotImported? ==> StartOf(w1, v.name).Marked? && !StartOf(w1, v.name).ok)
  {
    VisitFrame(cfg, w, v, v.name);
  }

  lemma StartAfterRun(cfg: Config, w: World, es: seq<Event>, name: string)
    requires WellFormed(cfg) && Inv(cfg, w) && Possible(cfg, w, es) && name in w.store.nodeImages
    requires FollowedBy(w, Execute(cfg, w, es), name)
    ensures StartOf(Execute(cfg, w, es), name) == StartOf(w, name) && w.now <= Execute(cfg, w, es).now
  {
    LogOnlyGrows(cfg, w, es);
    RunKeepsImportStart(cfg, w, es, name);
  }

  /** Once a timeout is reported, every later visit that reads the image reports it again until it reads active. */
  lemma TimeoutsRepeat(cfg: Config, w: World, v: Visit, es: seq<Event>, later: Visit, status: ImageStatus)
    requires WellFormed(cfg) && Inv(cfg, w) && LegitVisit(w, v) && VisitExit(cfg, w, v).TimedOut?
    requires Possible(cfg, ApplyVisit(cfg, w, v), es)
    requires FollowedBy(ApplyVisit(cfg, w, v), Execute(cfg, ApplyVisit(cfg, w, v), es), v.name)
    requires LegitVisit(Execute(cfg, ApplyVisit(cfg, w, v), es), later) && later.name == v.name
    requires Reads(later, status) && status != Active
    ensures VisitExit(cfg, Execute(cfg, ApplyVisit(cfg, w, v), es), later).TimedOut?
  {
    TimesOutIff(cfg, w, v);
    StartAfterVisit(cfg, w, v);
    StepKeepsInv(cfg, w, NodeVisit(v));
    StartAfterRun(cfg, ApplyVisit(cfg, w, v), es, v.name);
    TimesOutIff(cfg, Execute(cfg, ApplyVisit(cfg, w, v), es), later);
  }

  /** A visit that reads active always sets the object ready, timeout or not. */
  lemma ActiveAlwaysCounts(cfg: Config, w: World, v: Visit)
    requires LegitVisit(w, v) && Reads(v, Active) && v.kept
    ensures VisitExit(cfg, w, v).SawActive?
    ensures var st := ApplyVisit(cfg, w, v).store.nodeImages[v.name].status; st.ready && st.imageReady.IsTrue()
  {
  }

  lemma NoTimeoutWithoutStart(cfg: Config, w: World, v: Visit)
    requires LegitVisit(w, v) && !StartOf(w, v.name).IsTrue()
    ensures !VisitExit(cfg, w, v).TimedOut?
  {
  }

  // ---------- after a refused import ----------

  /** At every state of the run the lookup of the object finds the image. */
  ghost predicate StaysMatched(cfg: Config, w: World, es: seq<Event>, name: string, id: ImageId)
    requires Possible(cfg, w, es)
    decreases |es|
  {
    && name in w.store.nodeImages && id in Lookup(w.images, w.store.nodeImages[name].spec.opts)
    && (es == [] || StaysMatched(cfg, Apply(cfg, w, es[0]), es[1..], name, id))
  }

  /** A visit whose lookup finds an image neither creates nor imports. */
  lemma MatchedVisit(cfg: Config, w: World, v: Visit, id: ImageId)
    requires LegitVisit(w, v) && id in Lookup(w.images, w.store.nodeImages[v.name].spec.opts)
    ensures !N.Creating(VisitExit(cfg, w, v))
    ensures ApplyVisit(cfg, w, v).imported == w.imported && ApplyVisit(cfg, w, v).created == w.created
  {
    if v.answers.listing.Listed? {
      assert id in v.answers.listing.ids;
    }
  }

  lemma MatchedStep(cfg: Config, w: World, e: Event, name: string, id: ImageId)
    requires TasksInRange(w) && Versioned(w) && Legit(cfg, w, e)
    requires name in w.store.nodeImages && id in Lookup(w.images, w.store.nodeImages[name].spec.opts)
    requires name in Apply(cfg, w, e).store.nodeImages
    ensures FollowedBy(w, Apply(cfg, w, e), name)
  {
    StepGrowsLog(cfg, w, e);
    match e {
      case Outside(s) => OutsideFrame(cfg, w, s, name);
      case NodeVisit(v) =>
        VisitFrame(cfg, w, v, name);
        if v.name == name {
          MatchedVisit(cfg, w, v, id);
        }
      case Stack(n, s) =>
        if s.Write? && s.answer != Rejected(false) {
          WriteAdopts(w, n);
        }
    }
  }

  lemma FollowedOn(w: World, w1: World, w2: World, name: string)
    requires FollowedBy(w, w1, name) && FollowedBy(w1, w2, name)
    ensures FollowedBy(w, w2, name)
  {
    forall i | |w.log| <= i < |w2.log|
      ensures Follows(w2.log[i], name)
    {
      if i < |w1.log| {
        assert w2.log[i] == w1.log[i];
      }
    }
  }

  /** As long as the image is found, nothing touches the import start, and no visit of the object creates. */
  lemma {:induction false} MatchedRun(cfg: Config, w: World, es: seq<Event>, name: string, id: ImageId)
    requires WellFormed(cfg) && Inv(cfg, w) && Possible(cfg, w, es) && StaysMatched(cfg, w, es, name, id)
    ensures var w' := Execute(cfg, w, es);
            && FollowedBy(w, w', name)
            && name in w'.store.nodeImages && id in Lookup(w'.images, w'.store.nodeImages[name].spec.opts)
    decreases |es|
  {
    if es != [] {
      var w1 := Apply(cfg, w, es[0]);
      MatchedStep(cfg, w, es[0], name, id);
      StepKeepsInv(cfg, w, es[0]);
      MatchedRun(cfg, w1, es[1..], name, id);
      FollowedOn(w, w1, Execute(cfg, w1, es[1..]), name);
    }
  }

  /** After a refused import, stored or not, no visit creates or imports while the image stays found. */
  lemma FailedImportIsFinal(cfg: Config, w: World, v: Visit, es: seq<Event>, later: Visit)
    requires WellFormed(cfg) && Inv(cfg, w) && LegitVisit(w, v) && VisitExit(cfg, w, v).NotImported?
    requires Possible(cfg, ApplyVisit(cfg, w, v), es)
    requires StaysMatched(cfg, ApplyVisit(cfg, w, v), es, v.name, VisitExit(cfg, w, v).id)
    requires LegitVisit(Execute(cfg, ApplyVisit(cfg, w, v), es), later) && later.name == v.name
    ensures var w' := Execute(cfg, ApplyVisit(cfg, w, v), es);
            && !N.Creating(VisitExit(cfg, w', later))
            && ApplyVisit(cfg, w', later).imported == w'.imported && ApplyVisit(cfg, w', later).created == w'.created
  {
    StepKeepsInv(cfg, w, NodeVisit(v));
    MatchedRun(cfg, ApplyVisit(cfg, w, v), es, v.name, VisitExit(cfg, w, v).id);
    MatchedVisit(cfg, Execute(cfg, ApplyVisit(cfg, w, v), es), later, VisitExit(cfg, w, v).id);
  }

  lemma StartAfterRefusal(cfg: Config, w: World, v: Visit)
    requires LegitVisit(w, v) && VisitExit(cfg, w, v).NotImported?
    ensures var c := StartOf(ApplyVisit(cfg, w, v), v.name);
            if v.kept then c.Marked? && !c.ok else c == StartOf(w, v.name)
  {
    VisitFrame(cfg, w, v, v.name);
  }

  /** And a visit that reads a status other than active times out exactly when the patch of the refusal was lost
      and the start recorded before it is True and overdue. */
  lemma TimesOutAfterRefusalIff(cfg: Config, w: World, v: Visit, es: seq<Event>, later: Visit, status: ImageStatus)
    requires WellFormed(cfg) && Inv(cfg, w) && LegitVisit(w, v) && VisitExit(cfg, w, v).NotImported?
    requires Possible(cfg, ApplyVisit(cfg, w, v), es)
    requires StaysMatched(cfg, ApplyVisit(cfg, w, v), es, v.name, VisitExit(cfg, w, v).id)
    requires LegitVisit(Execute(cfg, ApplyVisit(cfg, w, v), es), later) && later.name == v.name
    requires Reads(later, status) && status != Active
    ensures var w', c := Execute(cfg, ApplyVisit(cfg, w, v), es), StartOf(w, v.name);
            VisitExit(cfg, w', later).TimedOut? <==>
              !v.kept && c.IsTrue() && cfg.timeout > 0 && w'.now - c.since > cfg.timeout * 60
  {
    StartAfterRefusal(cfg, w, v);
    StepKeepsInv(cfg, w, NodeVisit(v));
    MatchedRun(cfg, ApplyVisit(cfg, w, v), es, v.name, VisitExit(cfg, w, v).id);
    StartAfterRun(cfg, ApplyVisit(cfg, w, v), es, v.name);
    TimesOutIff(cfg, Execute(cfg, ApplyVisit(cfg, w, v), es), later);
  }

  /** An object whose import was begun and whose image then disappeared. */
  lemma ImportBegunAndImageGone(cfg: Config, o: CreateOpts) returns (w: World)
    requires WellFormed(cfg) && o in cfg.specs && o.name != ""
    ensures Reachable(cfg, w) && w.images == map[] && "a" in w.store.nodeImages
    ensures w.store.nodeImages["a"].spec.opts == o
    ensures StartOf(w, "a").IsTrue() && StartOf(w, "a").since == 0 == w.now
  {
    EmptyReachable(cfg);
    var w1 := WithNode(cfg, EMPTY, "a", o);
    var v := CreatingVisit(w1, "a");
    CreatingVisitCreates(cfg, w1, "a");
    VisitFrame(cfg, w1, v, "a");
    var w2 := ApplyVisit(cfg, w1, v);
    ReachableStep(cfg, w1, NodeVisit(v));
    w := ApplyOutside(cfg, w2, Drift(map[]));
    ReachableStep(cfg, w2, Outside(Drift(map[])));
  }

  /** The timeout does happen: a lost patch leaves the True start of an earlier import in place. */
  lemma LostPatchTimesOut(cfg: Config, o: CreateOpts) returns (w: World, v: Visit, later: Visit)
    requires WellFormed(cfg) && o in cfg.specs && !o.hidden && o.name != "" && cfg.timeout > 0
    ensures Reachable(cfg, w) && LegitVisit(w, v) && VisitExit(cfg, w, v).NotImported? && !v.kept
    ensures var w1 := ApplyVisit(cfg, w, v);
            && LegitVisit(w1, later) && later.name == v.name && Reads(later, Queued)
            && VisitExit(cfg, w1, later).TimedOut?
  {
    var w0 := ImportBegunAndImageGone(cfg, o);
    w := ApplyOutside(cfg, w0, Tick(cfg.timeout * 60 + 1));
    ReachableStep(cfg, w0, Outside(Tick(cfg.timeout * 60 + 1)));
    var id := IdFor(o, w.serial);
    v := Visit("a", N.Answers(N.CloudFound, true, true, N.Listed([]), N.Created(id), false, N.FetchFailed), map[], false, false);
    var w1 := ApplyVisit(cfg, w, v);
    later := Visit("a", N.Answers(N.CloudFound, true, true, N.Listed([id]), N.CreateRefused, true, N.Fetched(Queued)),
                   w1.images, false, true);
    assert Lookup(w1.images, o) == {id};
    assert VisitExit(cfg, w1, later) == N.TimedOut(id);
  }

  lemma CallCounts(e: N.Exit, spec: Spec, id: ImageId)
    ensures var calls := multiset(N.CallsOf(e, spec));
            && calls[N.CreateImage(spec.opts)] == (if N.Creating(e) then 1 else 0)
            && calls[N.ImportImage(id, spec.url)] == if (e.NotImported? || e.ImportBegun?) && e.id == id then 1 else 0
  {
  }

  lemma MadeExactly(cfg: Config, w: World, v: Visit)
    requires LegitVisit(w, v)
    ensures var id, e := IdFor(w.store.nodeImages[v.name].spec.opts, w.serial), VisitExit(cfg, w, v);
            && Made(e, v, id) == (if N.Creating(e) && (v.answers.creation.Created? || v.unanswered) then Some(id) else None)
            && (e.NotImported? || e.ImportBegun? ==> e.id == id)
  {
  }

  /** The step of the protocol creates and imports just what the reconciliation asks the image service for. */
  lemma VisitDoesItsCalls(cfg: Config, w: World, v: Visit, id: ImageId)
    requires LegitVisit(w, v)
    ensures var spec, w' := w.store.nodeImages[v.name].spec, ApplyVisit(cfg, w, v);
            var calls := N.CallsOf(VisitExit(cfg, w, v), spec);
            && w'.imported[id] == w.imported[id] + multiset(calls)[N.ImportImage(id, spec.url)]
            && w'.created[id] == w.created[id] + (if id == IdFor(spec.opts, w.serial) && (v.answers.creation.Created? || v.unanswered)
                                                  then multiset(calls)[N.CreateImage(spec.opts)] else 0)
            && (w'.images != v.between ==> N.CreateImage(spec.opts) in calls)
  {
    CallCounts(VisitExit(cfg, w, v), w.store.nodeImages[v.name].spec, id);
    MadeExactly(cfg, w, v);
  }

  /** A visit that does not create makes no image and imports none. */
  lemma OnlyCreatingVisitsImport(cfg: Config, w: World, v: Visit)
    requires LegitVisit(w, v) && !N.Creating(VisitExit(cfg, w, v))
    ensures var w' := ApplyVisit(cfg, w, v); w'.imported == w.imported && w'.created == w.created && w'.images == v.between
  {
  }
}
