/** From every good state, with reconciliations in flight or not, some faultless run brings a release closer to
    being ready, and one makes it ready. */
module Progress {
  import opened Owners
  import opened Glance
  import opened Cluster
  import opened StackReconciler
  import opened StackProperties
  import opened Protocol
  import opened ImageTheorems
  import opened Refinement
  import opened Measures
  import opened Convergence
  import opened FaultlessRuns
  import opened Unrest
  import N = NodeImageReconciler

  ghost predicate Lowers(cfg: Config, w: World, es: seq<Event>, name: string)
    requires Wanted(cfg, w, name)
  {
    && FaultlessRun(cfg, w, es) && Possible(cfg, w, es) && Wanted(cfg, Execute(cfg, w, es), name)
    && Below(RankOf(cfg, Execute(cfg, w, es), name), RankOf(cfg, w, name))
  }

  lemma {:induction false} RunNeverRaises(cfg: Config, w: World, es: seq<Event>, name: string)
    requires Good(cfg, w) && Wanted(cfg, w, name) && FaultlessRun(cfg, w, es)
    ensures Possible(cfg, w, es) && Good(cfg, Execute(cfg, w, es)) && Wanted(cfg, Execute(cfg, w, es), name)
    ensures AtMost(RankOf(cfg, Execute(cfg, w, es), name), RankOf(cfg, w, name))
    decreases |es|
  {
    if es != [] {
      var w1 := Apply(cfg, w, es[0]);
      FaultlessKeepsGood(cfg, w, es[0]);
      RankNeverRises(cfg, w, es[0], name);
      RunNeverRaises(cfg, w1, es[1..], name);
      Ordered(RankOf(cfg, Execute(cfg, w1, es[1..]), name), RankOf(cfg, w1, name), RankOf(cfg, w, name));
    }
  }

  lemma FaultlessSingle(cfg: Config, w: World, e: Event)
    requires Faultless(cfg, w, e)
    ensures FaultlessRun(cfg, w, [e]) && Possible(cfg, w, [e]) && Execute(cfg, w, [e]) == Apply(cfg, w, e)
  {
    Single(cfg, w, e);
    assert [e][1..] == [];
  }

  // ---------- getting the assets ----------

  lemma DownloadLowers(cfg: Config, w: World, name: string)
    requires Good(cfg, w) && Wanted(cfg, w, name) && name !in w.tasks && name !in w.downloaded
    ensures Lowers(cfg, w, [Stack(name, Early(Downloaded, true))], name)
  {
    var s := Early(Downloaded, true);
    FaultlessSingle(cfg, w, Stack(name, s));
    StackImproves(cfg, w, name, s, name);
    NoWorseRank(cfg, w, ApplyStack(cfg, w, name, s), name);
  }

  // ---------- a whole reconciliation ----------

  predicate Plain(e: Event) {
    e.Stack? && (e.step.Begin? || e.step.Read? || (e.step.Write? && e.step.answer == Accepted) || (e.step.Finish? && e.step.kept))
  }

  lemma {:induction false} PlainIsFaultless(cfg: Config, w: World, es: seq<Event>)
    requires Possible(cfg, w, es) && forall i :: 0 <= i < |es| ==> Plain(es[i])
    ensures FaultlessRun(cfg, w, es)
    decreases |es|
  {
    if es != [] {
      assert Plain(es[0]);
      PlainIsFaultless(cfg, Apply(cfg, w, es[0]), es[1..]);
    }
  }

  lemma {:induction false} RoundsArePlain(name: string, n: nat)
    ensures forall i :: 0 <= i < |Rounds(name, n)| ==> Plain(Rounds(name, n)[i])
  {
    if n > 0 {
      RoundsArePlain(name, n - 1);
    }
  }

  /** A pass over the items makes its release own them. */
  lemma OwningAfterPass(s: Store, items: seq<Item>, o: Identity)
    requires Parseable(o.apiVersion)
    ensures var t := EnsureAll(s, items, Generate(o));
            && (forall n :: Owns(t, o, n) <==> Owns(s, o, n) || n in NamesOf(items))
            && (forall n :: Owns(s, o, n) ==>
                  t.nodeImages[n].spec == s.nodeImages[n].spec && t.nodeImages[n].status == s.nodeImages[n].status)
  {
    var t := EnsureAll(s, items, Generate(o));
    EnsureAllEffect(s, items, Generate(o));
    forall n
      ensures Owns(t, o, n) <==> Owns(s, o, n) || n in NamesOf(items)
    {
      assert Names(items, n) <==> n in NamesOf(items);
      EnsureMakesOwner([], o, o);
      assert EnsureOwnerRef([], Generate(o)) == [Generate(o)];
      if n in s.nodeImages {
        EnsureMakesOwner(s.nodeImages[n].owners, o, o);
      }
    }
  }

  /** The release came to own its items, and was set ready if all it owns is. */
  ghost predicate TookOver(cfg: Config, w: World, w': World, name: string)
    requires Wanted(cfg, w, name)
  {
    && Wanted(cfg, w', name) && ItemsOf(cfg, w', name) == ItemsOf(cfg, w, name)
    && w'.images == w.images && w'.downloaded == w.downloaded
    && Owning(w', name) == Owning(w, name) + NamesOf(ItemsOf(cfg, w, name))
    && (forall n :: n in Owning(w, name) ==>
          && w'.store.nodeImages[n].spec == w.store.nodeImages[n].spec
          && w'.store.nodeImages[n].status == w.store.nodeImages[n].status)
    && (AllReady(w'.store, w'.store.releases[name].identity) ==> w'.store.releases[name].status.ready)
  }

  lemma ReconcilingIsFaultless(cfg: Config, w: World, name: string)
    requires Good(cfg, w) && Wanted(cfg, w, name) && name !in w.tasks && name in w.downloaded
    ensures var es := WholeReconcile(name, |ItemsOf(cfg, w, name)|); FaultlessRun(cfg, w, es) && Possible(cfg, w, es)
  {
    var es := WholeReconcile(name, |ItemsOf(cfg, w, name)|);
    WholeReconcileRefines(cfg, w, name);
    RoundsArePlain(name, |ItemsOf(cfg, w, name)|);
    PlainIsFaultless(cfg, w, es);
  }

  lemma ReconcilingTakesOver(cfg: Config, w: World, name: string)
    requires Good(cfg, w) && Wanted(cfg, w, name) && name !in w.tasks && name in w.downloaded
    ensures var es := WholeReconcile(name, |ItemsOf(cfg, w, name)|);
            Possible(cfg, w, es) && TookOver(cfg, w, Execute(cfg, w, es), name)
  {
    var o, items := w.store.releases[name].identity, ItemsOf(cfg, w, name);
    var es := WholeReconcile(name, |items|);
    WholeReconcileRefines(cfg, w, name);
    EnsureAllKeepsReleases(w.store, items, Generate(o));
    PassTakesOver(cfg, w, Execute(cfg, w, es), name, EnsureAll(w.store, items, Generate(o)));
  }

  lemma PassTakesOver(cfg: Config, w: World, w': World, name: string, mid: Store)
    requires Wanted(cfg, w, name) && Parseable(w.store.releases[name].identity.apiVersion)
    requires mid == EnsureAll(w.store, ItemsOf(cfg, w, name), Generate(w.store.releases[name].identity))
    requires mid.releases == w.store.releases && w'.images == w.images && w'.downloaded == w.downloaded
    requires w'.store.nodeImages == mid.nodeImages && name in w'.store.releases
    requires w'.store.releases[name] == w.store.releases[name].(status := w'.store.releases[name].status)
    requires AllReady(mid, w.store.releases[name].identity) ==> w'.store.releases[name].status.ready
    ensures TookOver(cfg, w, w', name)
  {
    var o, items := w.store.releases[name].identity, ItemsOf(cfg, w, name);
    OwningAfterPass(w.store, items, o);
    forall k
      ensures k in Owning(w', name) <==> Owns(mid, o, k)
      ensures k in Owning(w, name) <==> Owns(w.store, o, k)
      ensures Owns(w'.store, o, k) <==> Owns(mid, o, k)
    {
    }
  }

  /** Then nothing is missing; and if nothing was before, a settled release is finished. */
  lemma TakenOver(cfg: Config, w: World, w': World, name: string)
    requires Wanted(cfg, w, name) && TookOver(cfg, w, w', name) && name in w.downloaded
    requires Missing(cfg, w, name) != {} || (Unsettled(w, name) == {} && !Finished(cfg, w, name))
    ensures Below(RankOf(cfg, w', name), RankOf(cfg, w, name))
  {
    if Missing(cfg, w, name) == {} {
      forall k | k in NamesOf(ItemsOf(cfg, w, name))
        ensures k in Owning(w, name)
      {
        assert k !in Missing(cfg, w, name);
      }
      assert Owning(w', name) == Owning(w, name);
      SameImagesSameSets(cfg, w, w', name);
      SettledIsJudgedReady(cfg, w', name);
    } else {
      assert Missing(cfg, w', name) == {};
    }
    NoWorseRank(cfg, w, w', name);
  }

  lemma ReconcileLowers(cfg: Config, w: World, name: string)
    requires Good(cfg, w) && Wanted(cfg, w, name) && name !in w.tasks && name in w.downloaded
    requires Missing(cfg, w, name) != {} || (Unsettled(w, name) == {} && !Finished(cfg, w, name))
    ensures Lowers(cfg, w, WholeReconcile(name, |ItemsOf(cfg, w, name)|), name)
  {
    ReconcilingIsFaultless(cfg, w, name);
    ReconcilingTakesOver(cfg, w, name);
    TakenOver(cfg, w, Execute(cfg, w, WholeReconcile(name, |ItemsOf(cfg, w, name)|)), name);
  }

  // ---------- visits ----------

  /** Where lookups are unambiguous and nothing is hidden, an empty lookup has a free ID to create under. */
  lemma EmptyLookupHasFreeId(cfg: Config, w: World, n: string)
    requires Good(cfg, w) && n in w.store.nodeImages && Matching(w, n) == {}
    ensures IdFor(w.store.nodeImages[n].spec.opts, w.serial) !in w.images
  {
    var o := w.store.nodeImages[n].spec.opts;
    var id := IdFor(o, w.serial);
    if id in w.images {
      FindsIsSatisfies(w.images, cfg.specs, w.serial, o, id);
    }
  }

  /** The visit that follows an image that is there. */
  function FollowingVisit(w: World, name: string, id: ImageId): Visit
    requires id in w.images
  {
    Visit(name, N.Answers(N.CloudFound, true, true, N.Listed([id]), N.CreateRefused, true, N.Fetched(w.images[id].status)),
          w.images, false, true)
  }

  lemma CreatingLowers(cfg: Config, w: World, name: string, n: string)
    requires Good(cfg, w) && Wanted(cfg, w, name) && n in Owning(w, name) && Matching(w, n) == {}
    requires w.store.nodeImages[n].spec.opts.name != ""
    ensures Lowers(cfg, w, [NodeVisit(CreatingVisit(w, n))], name)
  {
    var v := CreatingVisit(w, n);
    EmptyLookupHasFreeId(cfg, w, n);
    CreatingVisitCreates(cfg, w, n);
    FaultlessSingle(cfg, w, NodeVisit(v));
    AnsweredEffect(cfg, w, v);
    MakingImproves(cfg, w, ApplyVisit(cfg, w, v), n, Image(w.store.nodeImages[n].spec.opts, true, Queued), name);
    NoWorseRank(cfg, w, ApplyVisit(cfg, w, v), name);
  }

  lemma FollowingIsLegit(cfg: Config, w: World, n: string, id: ImageId)
    requires Good(cfg, w) && n in w.store.nodeImages && id in Matching(w, n)
    ensures LegitVisit(w, FollowingVisit(w, n, id)) && Answered(w, FollowingVisit(w, n, id))
  {
    assert Unambiguous(w.images, cfg.specs) && w.store.nodeImages[n].spec.opts in cfg.specs;
    assert Matching(w, n) == {id};
    assert Lists([id], Matching(w, n));
  }

  lemma FollowingLowers(cfg: Config, w: World, name: string, n: string, id: ImageId)
    requires Good(cfg, w) && Wanted(cfg, w, name) && n in Unsettled(w, name)
    requires id in Matching(w, n) && w.images[id].status == Active
    ensures Lowers(cfg, w, [NodeVisit(FollowingVisit(w, n, id))], name)
  {
    var v := FollowingVisit(w, n, id);
    FollowingIsLegit(cfg, w, n, id);
    FaultlessSingle(cfg, w, NodeVisit(v));
    AnsweredEffect(cfg, w, v);
    SettledVisitImproves(cfg, w, v, name);
    ReadSettles(cfg, w, ApplyVisit(cfg, w, v), n, id);
    NoWorseRank(cfg, w, ApplyVisit(cfg, w, v), name);
  }

  lemma ReadSettles(cfg: Config, w: World, w': World, n: string, id: ImageId)
    requires n in w.store.nodeImages && id in w.images && ReadImage(cfg, w, w', n, id) && w.images[id].status == Active
    ensures Settled(w', n)
  {
    assert id in Matching(w', n);
  }

  // ---------- the image service ----------

  function Activated(w: World, id: ImageId): Images
    requires id in w.images
  {
    w.images[id := w.images[id].(status := Active)]
  }

  lemma ActivatingImproves(cfg: Config, w: World, w': World, name: string, n: string, id: ImageId)
    requires Wanted(cfg, w, name) && n in Owning(w, name) && id in Matching(w, n) && Distance(w.images[id].status) > 0
    requires w' == w.(images := Activated(w, id)) && Forward(w.images, w'.images)
    ensures Wanted(cfg, w', name) && Below(RankOf(cfg, w', name), RankOf(cfg, w, name))
  {
    ForwardImproves(cfg, w, w', name);
    assert (id, 0) in Steps(w, name) && (id, 0) !in Steps(w', name);
    NoWorseRank(cfg, w, w', name);
  }

  lemma ActivatedIsForward(w: World, id: ImageId)
    requires id in w.images && Live(w.images[id]) && w.images[id].status != Active
    ensures Forward(w.images, Activated(w, id)) && Distance(w.images[id].status) > 0
  {
  }

  lemma ActivatingIsFaultless(cfg: Config, w: World, images: Images)
    requires Forward(w.images, images)
    ensures var e := Outside(Drift(images));
            FaultlessRun(cfg, w, [e]) && Possible(cfg, w, [e]) && Execute(cfg, w, [e]) == w.(images := images)
  {
    FaultlessSingle(cfg, w, Outside(Drift(images)));
  }

  lemma ActivatingLowers(cfg: Config, w: World, name: string, n: string, id: ImageId)
    requires Good(cfg, w) && Wanted(cfg, w, name) && n in Owning(w, name)
    requires id in Matching(w, n) && w.images[id].status != Active
    ensures Lowers(cfg, w, [Outside(Drift(Activated(w, id)))], name)
  {
    ActivatedIsForward(w, id);
    ActivatingIsFaultless(cfg, w, Activated(w, id));
    ActivatingImproves(cfg, w, w.(images := Activated(w, id)), name, n, id);
  }

  // ---------- reconciliations in flight ----------

  /** The next call of a reconciliation in flight, when no call fails. */
  ghost function NextCall(w: World, name: string): StackStep
    requires name in w.tasks
  {
    var t := w.tasks[name];
    var kept := name in w.store.releases && w.store.releases[name] == t.release;
    if t.done >= |t.items| then Finish(kept)
    else if t.read == Unread then Read
    else if WriteAccepted(w, t) then Write(Accepted, false)
    else Write(Rejected(false), kept)
  }

  lemma NextCallIsFaultless(cfg: Config, w: World, name: string)
    requires Good(cfg, w) && name in w.tasks
    ensures Faultless(cfg, w, Stack(name, NextCall(w, name)))
    ensures var w', t := ApplyStack(cfg, w, name, NextCall(w, name)), w.tasks[name];
            name in w'.tasks ==>
              && t.done < |t.items| && |w'.tasks[name].items| == |t.items|
              && (w'.tasks[name].done > t.done
                  || (w'.tasks[name].done == t.done && t.read == Unread && w'.tasks[name].read != Unread))
  {
  }

  /** A reconciliation in flight can be brought to its end: its writes are taken, or one loses and ends it. */
  lemma {:induction false} Completes(cfg: Config, w: World, name: string) returns (es: seq<Event>)
    requires Good(cfg, w) && name in w.tasks
    ensures FaultlessRun(cfg, w, es) && Possible(cfg, w, es) && name !in Execute(cfg, w, es).tasks
    decreases |w.tasks[name].items| - w.tasks[name].done, if w.tasks[name].read == Unread then 1 else 0
  {
    var e := Stack(name, NextCall(w, name));
    NextCallIsFaultless(cfg, w, name);
    FaultlessSingle(cfg, w, e);
    FaultlessKeepsGood(cfg, w, e);
    var w1 := Apply(cfg, w, e);
    if name in w1.tasks {
      var rest := Completes(cfg, w1, name);
      FaultlessConcat(cfg, w, [e], rest);
      es := [e] + rest;
    } else {
      es := [e];
    }
  }

  // ---------- the theorems ----------

  /** Images can be made from all options. */
  ghost predicate Named(cfg: Config) {
    forall o :: o in cfg.specs ==> o.name != ""
  }

  lemma ObjectLowers(cfg: Config, w: World, name: string) returns (es: seq<Event>)
    requires Named(cfg) && Good(cfg, w) && Wanted(cfg, w, name) && Unsettled(w, name) != {}
    ensures Lowers(cfg, w, es, name)
  {
    var n :| n in Unsettled(w, name);
    if id :| id in Matching(w, n) {
      if w.images[id].status == Active {
        FollowingLowers(cfg, w, name, n, id);
        es := [NodeVisit(FollowingVisit(w, n, id))];
      } else {
        ActivatingLowers(cfg, w, name, n, id);
        es := [Outside(Drift(Activated(w, id)))];
      }
    } else {
      CreatingLowers(cfg, w, name, n);
      es := [NodeVisit(CreatingVisit(w, n))];
    }
  }

  lemma IdleLowers(cfg: Config, w: World, name: string) returns (es: seq<Event>)
    requires Named(cfg) && Good(cfg, w) && Wanted(cfg, w, name) && !Finished(cfg, w, name) && name !in w.tasks
    ensures Lowers(cfg, w, es, name)
  {
    if name !in w.downloaded {
      DownloadLowers(cfg, w, name);
      es := [Stack(name, Early(Downloaded, true))];
    } else if Missing(cfg, w, name) != {} || Unsettled(w, name) == {} {
      ReconcileLowers(cfg, w, name);
      es := WholeReconcile(name, |ItemsOf(cfg, w, name)|);
    } else {
      es := ObjectLowers(cfg, w, name);
    }
  }

  /** As long as a release is not finished, some faultless run lowers its rank: if a reconciliation of it is in
      flight, that comes to its end first. */
  lemma SomeRunLowers(cfg: Config, w: World, name: string) returns (es: seq<Event>)
    requires Named(cfg) && Good(cfg, w) && Wanted(cfg, w, name) && !Finished(cfg, w, name)
    ensures Lowers(cfg, w, es, name)
  {
    if name in w.tasks {
      es := Completes(cfg, w, name);
      RunNeverRaises(cfg, w, es, name);
      var w1 := Execute(cfg, w, es);
      if !Below(RankOf(cfg, w1, name), RankOf(cfg, w, name)) {
        var rest := IdleLowers(cfg, w1, name);
        FaultlessConcat(cfg, w, es, rest);
        es := es + rest;
      }
    } else {
      es := IdleLowers(cfg, w, name);
    }
  }

  /** From every good state, whatever is in flight, a faultless run makes the release ready. */
  lemma {:induction false} Converges(cfg: Config, w: World, name: string) returns (es: seq<Event>)
    requires Named(cfg) && Good(cfg, w) && Wanted(cfg, w, name)
    ensures FaultlessRun(cfg, w, es) && Possible(cfg, w, es)
    ensures var w' := Execute(cfg, w, es); Good(cfg, w') && Wanted(cfg, w', name) && Finished(cfg, w', name)
    decreases RankOf(cfg, w, name).a, RankOf(cfg, w, name).b, RankOf(cfg, w, name).c,
              RankOf(cfg, w, name).d, RankOf(cfg, w, name).e, RankOf(cfg, w, name).f
  {
    if Finished(cfg, w, name) {
      es := [];
    } else {
      var first := SomeRunLowers(cfg, w, name);
      RunNeverRaises(cfg, w, first, name);
      var rest := Converges(cfg, Execute(cfg, w, first), name);
      FaultlessConcat(cfg, w, first, rest);
      es := first + rest;
    }
  }
}
