/** Over every run: what a ready flag means, for both kinds of object. */
module ReadinessTheorems {
  import opened Wrappers
  import opened Owners
  import opened Glance
  import opened Cluster
  import opened StackReconciler
  import opened Protocol
  import opened Invariants
  import opened ImageTheorems
  import opened Refinement
  import opened Measures
  import opened Convergence
  import opened FaultlessRuns
  import opened Progress

  /** Entry k of the log is a stored visit of the object that saw an active image its lookup finds, and no
      later entry takes readiness back. */
  ghost predicate Earned(w: World, name: string, k: nat) {
    && name in w.store.nodeImages && k < |w.log|
    && w.log[k].Visited? && w.log[k].name == name && w.log[k].exit.SawActive? && Honest(w.log[k])
    && w.log[k].opts == w.store.nodeImages[name].spec.opts
    && forall j :: k < j < |w.log| && w.log[j].name == name ==> w.log[j].Visited? && !N.Refusing(w.log[j].exit)
  }

  lemma {:induction false} WitnessPosition(log: seq<Entry>, name: string) returns (k: nat)
    requires ReadyWitness(log, name).Some?
    ensures k < |log| && log[k] == ReadyWitness(log, name).value
    ensures log[k].Visited? && log[k].name == name && log[k].exit.SawActive?
    ensures forall j :: k < j < |log| && log[j].name == name ==> log[j].Visited? && !N.Refusing(log[j].exit)
  {
    var front, last := log[..|log| - 1], log[|log| - 1];
    if last.name == name && last.Visited? && last.exit.SawActive? {
      k := |log| - 1;
    } else {
      k := WitnessPosition(front, name);
      assert forall j :: k < j < |front| ==> log[j] == front[j];
    }
  }

  /** A ready flag of an OpenStackNodeImageRelease was earned. */
  lemma ReadyIsEarned(cfg: Config, w: World, name: string)
    requires WellFormed(cfg) && Reachable(cfg, w)
    requires name in w.store.nodeImages && w.store.nodeImages[name].status.ready
    ensures exists k :: Earned(w, name, k)
  {
    ReachableMeetsInv(cfg, w);
    var k := WitnessPosition(w.log, name);
    assert Earned(w, name, k);
  }

  /** Image-ready True goes with the flag; the flag outlives it only through a lookup error, a get error or a
      timeout as the last stored visit that reached the image service. */
  lemma FlagOutlivesConditionOnlyByErrors(cfg: Config, w: World, name: string)
    requires WellFormed(cfg) && Reachable(cfg, w) && name in w.store.nodeImages
    ensures var st, last := w.store.nodeImages[name].status, LastImageExit(w.log, name);
            && (st.imageReady.IsTrue() <==> last.Some? && last.value.SawActive?)
            && (st.imageReady.IsTrue() ==> st.ready)
            && (st.ready && !st.imageReady.IsTrue() ==>
                  last.Some? && (last.value.ListError? || last.value.TooManyFound? || last.value.GetError? || last.value.TimedOut?))
  {
    ReachableMeetsInv(cfg, w);
  }

  /** An OpenStackClusterStackRelease is ready exactly when its node-images condition is True. */
  lemma StackFlagIsCondition(cfg: Config, w: World, name: string)
    requires WellFormed(cfg) && Reachable(cfg, w) && name in w.store.releases
    ensures w.store.releases[name].status.ready <==> w.store.releases[name].status.nodeImagesReady.IsTrue()
  {
    ReachableMeetsInv(cfg, w);
  }

  /** When a reconciliation sets a release ready, something is owned and each owned object's readiness was
      earned; a node image of the release is among them, under its derived name, exactly if it is not lost: if not
      somebody else last deleted the object, or left it without the release among its owners, while the
      reconciliation was in flight, and it was not taken again since. */
  lemma ReadinessTracesBack(cfg: Config, w: World, name: string, kept: bool)
    requires WellFormed(cfg) && Reachable(cfg, w)
    requires LegitStack(cfg, w, name, Finish(kept)) && Judgement(w, name) == ReadyNow
    ensures var t := w.tasks[name];
            && name in cfg.catalog && Items(t.release, cfg.catalog[name]) == Ok(t.items)
            && (exists n :: Owns(w.store, t.release.identity, n))
            && (forall n :: Owns(w.store, t.release.identity, n) ==>
                  w.store.nodeImages[n].status.ready && exists k :: Earned(w, n, k))
            && (forall i :: 0 <= i < |t.items| ==>
                  (Owns(w.store, t.release.identity, t.items[i].name) <==> t.items[i].name !in t.lost))
  {
    ReachableMeetsInv(cfg, w);
    var t := w.tasks[name];
    forall n | Owns(w.store, t.release.identity, n)
      ensures exists k :: Earned(w, n, k)
    {
      ReadyIsEarned(cfg, w, n);
    }
    assert Exact(w.store, t) && t.done == |t.items|;
  }

  // ---------- the exception is needed ----------

  /** Somebody else deletes the object, or edits its owners so that the release is none. */
  ghost predicate Loses(s: OutsideStep, n: string, r: Identity) {
    match s
    case DropNode(m) => m == n
    case EditOwners(m, owners) => m == n && !OwnedBy(owners, r)
    case _ => false
  }

  /** The loss leaves the release going ready without the object. */
  ghost predicate Unnoticed(cfg: Config, w: World, name: string, s: OutsideStep, x: string)
    requires name in w.tasks
  {
    && LegitOutside(cfg, w, s)
    && var w' := ApplyOutside(cfg, w, s);
       && LegitStack(cfg, w', name, Finish(true)) && Judgement(w', name) == ReadyNow
       && w'.tasks[name].items == w.tasks[name].items && !Owns(w'.store, w'.tasks[name].release.identity, x)
       && ApplyStack(cfg, w', name, Finish(true)).store.releases[name].status.ready
  }

  /** Where a reconciliation is about to set a release ready, a loss of one of two owned objects goes unnoticed. */
  lemma LossGoesUnnoticed(cfg: Config, w: World, name: string, s: OutsideStep, x: string, y: string)
    requires LegitStack(cfg, w, name, Finish(true)) && Judgement(w, name) == ReadyNow && x != y
    requires Owns(w.store, w.tasks[name].release.identity, x) && Owns(w.store, w.tasks[name].release.identity, y)
    requires Loses(s, x, w.tasks[name].release.identity)
    ensures Unnoticed(cfg, w, name, s, x)
  {
    var w', r := ApplyOutside(cfg, w, s), w.tasks[name].release.identity;
    assert w'.tasks[name].release == w.tasks[name].release;
    assert Owns(w'.store, r, y);
    forall n | Owns(w'.store, r, n)
      ensures w'.store.nodeImages[n].status.ready
    {
      assert Owns(w.store, r, n);
    }
  }

  lemma {:induction false} ReachableRun(cfg: Config, w: World, es: seq<Event>)
    requires Reachable(cfg, w) && Possible(cfg, w, es)
    ensures Reachable(cfg, Execute(cfg, w, es))
    decreases |es|
  {
    if es != [] {
      ReachableStep(cfg, w, es[0]);
      ReachableRun(cfg, Apply(cfg, w, es[0]), es[1..]);
    }
  }

  /** A faultless run leaves a finished release finished. */
  lemma StaysFinished(cfg: Config, w: World, es: seq<Event>, name: string)
    requires Good(cfg, w) && Wanted(cfg, w, name) && Finished(cfg, w, name) && FaultlessRun(cfg, w, es)
    ensures Possible(cfg, w, es) && Good(cfg, Execute(cfg, w, es)) && Wanted(cfg, Execute(cfg, w, es), name)
    ensures Finished(cfg, Execute(cfg, w, es), name)
  {
    FinishedIsZero(cfg, w, name);
    RunNeverRaises(cfg, w, es, name);
    ZeroIsLeast(RankOf(cfg, Execute(cfg, w, es), name));
    FinishedIsZero(cfg, Execute(cfg, w, es), name);
  }

  /** The first reconciliation of a new release, brought to where the release is finished and nothing is in flight. */
  lemma ReachFinished(cfg: Config, r: StackRelease) returns (w: World)
    requires WellFormed(cfg) && Named(cfg) && Compatible(cfg.specs) && forall o :: o in cfg.specs ==> !o.hidden
    requires LegitOutside(cfg, EMPTY, AddRelease(r)) && r.identity.name in cfg.catalog
    requires cfg.catalog[r.identity.name].images != [] && Items(r, cfg.catalog[r.identity.name]).Ok?
    ensures Reachable(cfg, w) && Good(cfg, w) && r.identity.name !in w.tasks
    ensures Wanted(cfg, w, r.identity.name) && Finished(cfg, w, r.identity.name)
  {
    var name := r.identity.name;
    EmptyReachable(cfg);
    var w1 := ApplyOutside(cfg, EMPTY, AddRelease(r));
    ReachableStep(cfg, EMPTY, Outside(AddRelease(r)));
    ReachableMeetsInv(cfg, w1);
    var es := Converges(cfg, w1, name);
    w := Execute(cfg, w1, es);
    ReachableRun(cfg, w1, es);
    if name in w.tasks {
      var rest := Completes(cfg, w, name);
      StaysFinished(cfg, w, rest, name);
      ReachableRun(cfg, w, rest);
      w := Execute(cfg, w, rest);
    }
  }

  lemma BeginsAgain(cfg: Config, w: World, name: string)
    requires Reachable(cfg, w) && Good(cfg, w) && Wanted(cfg, w, name) && Finished(cfg, w, name) && name !in w.tasks
    ensures LegitStack(cfg, w, name, Begin)
    ensures var w1 := ApplyStack(cfg, w, name, Begin);
            && Reachable(cfg, w1) && Good(cfg, w1) && Wanted(cfg, w1, name) && Finished(cfg, w1, name)
            && name in w1.tasks && w1.tasks[name] == Task(w.store.releases[name], ItemsOf(cfg, w, name), 0, Unread, {})
            && w1.store == w.store
  {
    var begin := Stack(name, Begin);
    FaultlessSingle(cfg, w, begin);
    StaysFinished(cfg, w, [begin], name);
    ReachableStep(cfg, w, begin);
  }

  lemma LoopStaysFinished(cfg: Config, w: World, name: string, n: nat)
    requires Reachable(cfg, w) && Good(cfg, w) && Wanted(cfg, w, name) && Finished(cfg, w, name)
    requires Possible(cfg, w, Rounds(name, n))
    ensures var w' := Execute(cfg, w, Rounds(name, n)); Reachable(cfg, w') && Wanted(cfg, w', name) && Finished(cfg, w', name)
  {
    RoundsArePlain(name, n);
    PlainIsFaultless(cfg, w, Rounds(name, n));
    StaysFinished(cfg, w, Rounds(name, n), name);
    ReachableRun(cfg, w, Rounds(name, n));
  }

  lemma GoesThrough(cfg: Config, w: World, name: string) returns (w': World)
    requires Reachable(cfg, w) && Good(cfg, w) && Wanted(cfg, w, name) && Finished(cfg, w, name)
    requires name in w.tasks && w.tasks[name].read == Unread && w.tasks[name].done == 0
    ensures Reachable(cfg, w') && Wanted(cfg, w', name) && Finished(cfg, w', name)
    ensures w'.store.releases == w.store.releases && name in w'.tasks
    ensures var t, t' := w.tasks[name], w'.tasks[name];
            t'.release == t.release && t'.items == t.items && t'.done == |t.items|
  {
    var n := |w.tasks[name].items|;
    RoundsEnsureAll(cfg, w, name);
    LoopStaysFinished(cfg, w, name, n);
    w' := Execute(cfg, w, Rounds(name, n));
  }

  /** A second one, brought to its end but for the judgement. */
  lemma ReachJudgement(cfg: Config, w: World, name: string) returns (w': World)
    requires Reachable(cfg, w) && Good(cfg, w) && Wanted(cfg, w, name) && Finished(cfg, w, name) && name !in w.tasks
    ensures Reachable(cfg, w') && Wanted(cfg, w', name) && Finished(cfg, w', name)
    ensures LegitStack(cfg, w', name, Finish(true)) && w'.tasks[name].release == w'.store.releases[name]
    ensures NamesOf(w'.tasks[name].items) == NamesOf(ItemsOf(cfg, w, name))
  {
    BeginsAgain(cfg, w, name);
    w' := GoesThrough(cfg, ApplyStack(cfg, w, name, Begin), name);
  }

  lemma ItemsAreOwned(cfg: Config, w: World, name: string, x: string)
    requires Inv(cfg, w) && Wanted(cfg, w, name) && Finished(cfg, w, name) && name in w.tasks
    requires w.tasks[name].release == w.store.releases[name] && x in NamesOf(w.tasks[name].items)
    ensures Owns(w.store, w.tasks[name].release.identity, x)
  {
    assert ItemsOf(cfg, w, name) == w.tasks[name].items;
    assert x !in Missing(cfg, w, name);
  }

  lemma SameItemNames(cfg: Config, w: World, r: StackRelease)
    requires Inv(cfg, w) && Wanted(cfg, w, r.identity.name) && Items(r, cfg.catalog[r.identity.name]).Ok?
    ensures NamesOf(ItemsOf(cfg, w, r.identity.name)) == NamesOf(Items(r, cfg.catalog[r.identity.name]).value)
  {
    SameTagSameNames(r, w.store.releases[r.identity.name], cfg.catalog[r.identity.name]);
  }

  /** For every release with a valid tag, a reachable state in which its loop is through and it is about to go ready. */
  lemma AboutToBeReady(cfg: Config, r: StackRelease) returns (w: World)
    requires WellFormed(cfg) && Named(cfg) && Compatible(cfg.specs) && forall o :: o in cfg.specs ==> !o.hidden
    requires LegitOutside(cfg, EMPTY, AddRelease(r)) && r.identity.name in cfg.catalog
    requires cfg.catalog[r.identity.name].images != [] && Items(r, cfg.catalog[r.identity.name]).Ok?
    ensures var name := r.identity.name;
            && Reachable(cfg, w) && LegitStack(cfg, w, name, Finish(true)) && Judgement(w, name) == ReadyNow
            && NamesOf(w.tasks[name].items) == NamesOf(Items(r, cfg.catalog[name]).value)
            && forall x :: x in NamesOf(w.tasks[name].items) ==> Owns(w.store, w.tasks[name].release.identity, x)
  {
    var name := r.identity.name;
    var w0 := ReachFinished(cfg, r);
    SameItemNames(cfg, w0, r);
    w := ReachJudgement(cfg, w0, name);
    ReachableMeetsInv(cfg, w);
    SettledIsJudgedReady(cfg, w, name);
    forall x | x in NamesOf(w.tasks[name].items)
      ensures Owns(w.store, w.tasks[name].release.identity, x)
    {
      ItemsAreOwned(cfg, w, name, x);
    }
  }

  /** For every release with two differently named node images there is a reachable state in which its loop is through,
      and from which any such loss of one of them leaves it going ready without that object. */
  lemma ExceptionIsNeeded(cfg: Config, r: StackRelease, x: string, y: string) returns (w: World)
    requires WellFormed(cfg) && Named(cfg) && Compatible(cfg.specs) && forall o :: o in cfg.specs ==> !o.hidden
    requires LegitOutside(cfg, EMPTY, AddRelease(r)) && r.identity.name in cfg.catalog
    requires Items(r, cfg.catalog[r.identity.name]).Ok? && x != y
    requires x in NamesOf(Items(r, cfg.catalog[r.identity.name]).value)
    requires y in NamesOf(Items(r, cfg.catalog[r.identity.name]).value)
    ensures var name := r.identity.name;
            && Reachable(cfg, w) && LegitStack(cfg, w, name, Finish(true)) && x in NamesOf(w.tasks[name].items)
            && forall s :: Loses(s, x, w.tasks[name].release.identity) ==> Unnoticed(cfg, w, name, s, x)
  {
    var name := r.identity.name;
    w := AboutToBeReady(cfg, r);
    forall s | Loses(s, x, w.tasks[name].release.identity)
      ensures Unnoticed(cfg, w, name, s, x)
    {
      LossGoesUnnoticed(cfg, w, name, s, x, y);
    }
  }
}
