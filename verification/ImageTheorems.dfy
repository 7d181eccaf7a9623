/** Over every run: when lookups are unambiguous, and how many images one set of create options can leave. */
module ImageTheorems {
  import opened Glance
  import opened Cluster
  import opened Protocol
  import opened Invariants

  // ---------- building runs ----------

  lemma {:induction false} RunsExtend(cfg: Config, w: World, es: seq<Event>, e: Event)
    requires Possible(cfg, w, es) && Legit(cfg, Execute(cfg, w, es), e)
    ensures Possible(cfg, w, es + [e])
    ensures Execute(cfg, w, es + [e]) == Apply(cfg, Execute(cfg, w, es), e)
    decreases |es|
  {
    if es == [] {
      assert ([] + [e])[1..] == [];
      assert Possible(cfg, Apply(cfg, w, e), []);
    } else {
      assert (es + [e])[1..] == es[1..] + [e];
      RunsExtend(cfg, Apply(cfg, w, es[0]), es[1..], e);
    }
  }

  lemma ReachableStep(cfg: Config, w: World, e: Event)
    requires Reachable(cfg, w) && Legit(cfg, w, e)
    ensures Reachable(cfg, Apply(cfg, w, e))
  {
    var w0, es :| Init(w0) && Possible(cfg, w0, es) && Execute(cfg, w0, es) == w;
    RunsExtend(cfg, w0, es, e);
  }

  const EMPTY := World(0, Store(0, map[], map[]), map[], 0, {}, map[], [], multiset{}, multiset{})

  lemma EmptyReachable(cfg: Config)
    ensures Reachable(cfg, EMPTY)
  {
    assert Init(EMPTY) && Possible(cfg, EMPTY, []) && Execute(cfg, EMPTY, []) == EMPTY;
  }

  /** An object applied by hand. */
  lemma WithNode(cfg: Config, w: World, name: string, o: CreateOpts) returns (w': World)
    requires Reachable(cfg, w) && name !in w.store.nodeImages && o in cfg.specs
    ensures Reachable(cfg, w')
    ensures w' == w.(store := AddNodeImage(w.store, name, [], Spec("", o, "")), log := w.log + [Born(name)],
                     tasks := Disturbed(w.tasks, name, []))
  {
    var s := AddNode(name, [], Spec("", o, ""));
    w' := ApplyOutside(cfg, w, s);
    ReachableStep(cfg, w, Outside(s));
  }

  /** The visit of an object whose lookup is empty, without a fault. */
  function CreatingVisit(w: World, name: string): Visit
    requires name in w.store.nodeImages
  {
    var id := IdFor(w.store.nodeImages[name].spec.opts, w.serial);
    Visit(name, N.Answers(N.CloudFound, true, true, N.Listed([]), N.Created(id), true, N.FetchFailed), w.images, false, true)
  }

  lemma CreatingVisitCreates(cfg: Config, w: World, name: string)
    requires name in w.store.nodeImages
    requires var o := w.store.nodeImages[name].spec.opts;
             o.name != "" && Lookup(w.images, o) == {} && IdFor(o, w.serial) !in w.images
    ensures LegitVisit(w, CreatingVisit(w, name))
    ensures var o, w' := w.store.nodeImages[name].spec.opts, ApplyVisit(cfg, w, CreatingVisit(w, name));
            && w'.images == w.images[IdFor(o, w.serial) := Image(o, true, Queued)] && w'.serial == w.serial + 1
            && w'.store.nodeImages.Keys == w.store.nodeImages.Keys
            && forall n :: n in w.store.nodeImages ==>
                 && w'.store.nodeImages[n].spec == w.store.nodeImages[n].spec
                 && w'.store.nodeImages[n].owners == w.store.nodeImages[n].owners
  {
    var o, v := w.store.nodeImages[name].spec.opts, CreatingVisit(w, name);
    assert Lists([], Lookup(w.images, o));
    assert VisitExit(cfg, w, v) == N.ImportBegun(IdFor(o, w.serial));
  }

  lemma WithImage(cfg: Config, w: World, name: string) returns (w': World)
    requires WellFormed(cfg) && Reachable(cfg, w) && name in w.store.nodeImages
    requires var o := w.store.nodeImages[name].spec.opts;
             o.name != "" && Lookup(w.images, o) == {} && IdFor(o, w.serial) !in w.images
    ensures Reachable(cfg, w')
    ensures var o := w.store.nodeImages[name].spec.opts;
            && w'.images == w.images[IdFor(o, w.serial) := Image(o, true, Queued)] && w'.serial == w.serial + 1
            && w'.store.nodeImages.Keys == w.store.nodeImages.Keys
            && forall n :: n in w.store.nodeImages ==> w'.store.nodeImages[n].spec == w.store.nodeImages[n].spec
  {
    CreatingVisitCreates(cfg, w, name);
    w' := ApplyVisit(cfg, w, CreatingVisit(w, name));
    ReachableStep(cfg, w, NodeVisit(CreatingVisit(w, name)));
  }

  // ---------- unambiguous lookups ----------

  /** If two sets of options share a lookup but do not find each other's images, a run reaches a state where
      that lookup finds two images. */
  lemma AmbiguityReachable(cfg: Config) returns (w: World)
    requires WellFormed(cfg) && !Compatible(cfg.specs)
    ensures Reachable(cfg, w) && !Unambiguous(w.images, cfg.specs)
  {
    var a, b, c :| a in cfg.specs && b in cfg.specs && c in cfg.specs
                   && a.name != "" && c.name != "" && Satisfies(a, b) && Satisfies(c, b) && !Satisfies(a, c);
    EmptyReachable(cfg);
    var w1 := WithNode(cfg, EMPTY, "a", a);
    var w2 := WithNode(cfg, w1, "c", c);
    var w3 := WithImage(cfg, w2, "a");
    ReachableMeetsInv(cfg, w3);
    var i, j := IdFor(a, 0), IdFor(c, 1);
    FindsIsSatisfies(w3.images, cfg.specs, w3.serial, c, i);
    w := WithImage(cfg, w3, "c");
    ReachableMeetsInv(cfg, w);
    FindsIsSatisfies(w.images, cfg.specs, w.serial, b, i);
    FindsIsSatisfies(w.images, cfg.specs, w.serial, b, j);
  }

  /** No reachable state has an ambiguous lookup, exactly when options that share a lookup find each other's
      images. Failing calls, lost answers and lost patches are all among the runs. */
  lemma UnambiguousIffCompatible(cfg: Config)
    requires WellFormed(cfg)
    ensures (forall w :: Reachable(cfg, w) ==> Unambiguous(w.images, cfg.specs)) <==> Compatible(cfg.specs)
  {
    if Compatible(cfg.specs) {
      forall w | Reachable(cfg, w)
        ensures Unambiguous(w.images, cfg.specs)
      {
        ReachableMeetsInv(cfg, w);
      }
    } else {
      var w := AmbiguityReachable(cfg);
    }
  }

  /** Then no reconciliation ever finds too many images. */
  lemma NeverTooMany(cfg: Config, w: World, v: Visit)
    requires WellFormed(cfg) && Reachable(cfg, w) && Compatible(cfg.specs) && LegitVisit(w, v)
    ensures !VisitExit(cfg, w, v).TooManyFound?
  {
    ReachableMeetsInv(cfg, w);
    if v.answers.listing.Listed? {
      ListingSize(v.answers.listing.ids, Lookup(w.images, w.store.nodeImages[v.name].spec.opts));
    }
  }

  /** Symmetric and transitive satisfaction is enough. */
  lemma SymmetricTransitiveIsCompatible(specs: set<CreateOpts>)
    requires forall a, b :: a in specs && b in specs && Satisfies(a, b) ==> Satisfies(b, a)
    requires forall a, b, c :: a in specs && b in specs && c in specs && Satisfies(a, b) && Satisfies(b, c) ==> Satisfies(a, c)
    ensures Compatible(specs)
  {
    forall a, b, c | a in specs && b in specs && c in specs && Satisfies(a, b) && Satisfies(c, b)
      ensures Satisfies(a, c)
    {
      assert Satisfies(b, c);
    }
  }

  /** Options without ID, name and tags find every listed image. With such options, lookups are unambiguous exactly
      when any two listed images of the set find each other. */
  lemma WildcardNeedsAll(specs: set<CreateOpts>, b: CreateOpts)
    requires b in specs && b.id == "" && b.name == "" && b.tags == {}
    ensures Compatible(specs) <==>
              forall a, c :: a in specs && c in specs && a.name != "" && c.name != "" && !a.hidden && !c.hidden ==> Satisfies(a, c)
  {
    if Compatible(specs) {
      forall a, c | a in specs && c in specs && a.name != "" && c.name != "" && !a.hidden && !c.hidden
        ensures Satisfies(a, c)
      {
        assert Satisfies(a, b) && Satisfies(c, b);
      }
    }
  }

  /** Images are made only from options that have a name: a visit whose options have none leaves the images alone. */
  lemma NamelessMakesNothing(cfg: Config, w: World, v: Visit)
    requires WellFormed(cfg) && Reachable(cfg, w) && LegitVisit(w, v) && w.store.nodeImages[v.name].spec.opts.name == ""
    ensures ApplyVisit(cfg, w, v).images == v.between && ApplyVisit(cfg, w, v).created == w.created
    ensures forall id :: id in w.images ==> w.images[id].origin.name != ""
  {
    ReachableMeetsInv(cfg, w);
    MakesOnlyWhatIsMissing(cfg, w, v);
  }

  // ---------- images made from the same options ----------

  function Copies(images: Images, o: CreateOpts): set<ImageId> {
    set i | i in images && images[i].origin == o
  }

  /** Options with a name and without an ID whose images are hidden make another image at every faultless visit. */
  lemma {:induction false} HiddenImagesPileUp(cfg: Config, o: CreateOpts, n: nat) returns (w: World)
    requires WellFormed(cfg) && o in cfg.specs && o.hidden && o.id == "" && o.name != ""
    ensures Reachable(cfg, w) && "h" in w.store.nodeImages && w.store.nodeImages["h"].spec.opts == o
    ensures |Copies(w.images, o)| >= n && forall i :: i in w.images ==> w.images[i].origin == o
  {
    if n == 0 {
      EmptyReachable(cfg);
      w := WithNode(cfg, EMPTY, "h", o);
    } else {
      var before := HiddenImagesPileUp(cfg, o, n - 1);
      ReachableMeetsInv(cfg, before);
      var id := IdFor(o, before.serial);
      assert Lookup(before.images, o) == {};
      w := WithImage(cfg, before, "h");
      assert Copies(w.images, o) == Copies(before.images, o) + {id};
      assert id !in Copies(before.images, o);
    }
  }

  /** In all runs at most one image made from the same options exists at a time, exactly when the options name
      an ID, or the image is listed, or none can be made for want of a name. */
  lemma OneCopyIffListed(cfg: Config, o: CreateOpts)
    requires WellFormed(cfg) && o in cfg.specs
    ensures (forall w :: Reachable(cfg, w) ==> |Copies(w.images, o)| <= 1) <==> o.id != "" || !o.hidden || o.name == ""
  {
    if o.id != "" || !o.hidden || o.name == "" {
      forall w | Reachable(cfg, w)
        ensures |Copies(w.images, o)| <= 1
      {
        ReachableMeetsInv(cfg, w);
        var copies := Copies(w.images, o);
        if copies != {} {
          var i :| i in copies;
          assert copies == {i};
        }
      }
    } else {
      var w := HiddenImagesPileUp(cfg, o, 2);
    }
  }
}
