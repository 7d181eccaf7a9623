/** Fair runs exist: one for every release with one node image, from a reachable state, going round in a circle of one
    visit and one reconciliation call by call. */
module FairExample {
  import opened Glance
  import opened Cluster
  import opened StackReconciler
  import opened Protocol
  import opened ImageTheorems
  import opened Invariants
  import opened Convergence
  import opened FaultlessRuns
  import opened Unrest
  import opened Progress
  import opened FairRuns

  /** The release, its object and the image of that, and the state at the beginning. */
  datatype Cast = Cast(cfg: Config, start: World, name: string, x: string, id: ImageId)

  // ---------- the circle ----------

  /** One release, downloaded, of one item. */
  ghost predicate OneRelease(c: Cast, w: World) {
    && Wanted(c.cfg, w, c.name) && c.name in w.downloaded && w.store.releases.Keys == {c.name}
    && |ItemsOf(c.cfg, w, c.name)| == 1 && ItemsOf(c.cfg, w, c.name)[0].name == c.x
  }

  /** One object, and one image, which it finds and which is active. */
  ghost predicate OneImage(c: Cast, w: World) {
    && w.store.nodeImages.Keys == {c.x} && w.images.Keys == {c.id}
    && c.id in Matching(w, c.x) && w.images[c.id].status == Active
  }

  ghost predicate Stage(c: Cast, w: World) {
    Good(c.cfg, w) && OneRelease(c, w) && OneImage(c, w)
  }

  /** Nothing is in flight in phases 0 and 1; then the reconciliation has begun, has read, has written. */
  ghost predicate TaskIn(c: Cast, w: World, p: nat)
    requires OneRelease(c, w) && OneImage(c, w)
  {
    if p <= 1 then w.tasks == map[] else
      && w.tasks.Keys == {c.name}
      && var t := w.tasks[c.name];
         && t.release == w.store.releases[c.name] && t.items == ItemsOf(c.cfg, w, c.name)
         && t.done == (if p == 4 then 1 else 0)
         && t.read == (if p == 3 then Seen(w.store.nodeImages[c.x]) else Unread)
  }

  ghost predicate InPhase(c: Cast, w: World, p: nat) {
    Stage(c, w) && TaskIn(c, w, p)
  }

  ghost function CallIn(p: nat): StackStep {
    if p == 1 then Begin else if p == 2 then Read else if p == 3 then Write(Accepted, false) else Finish(true)
  }

  ghost function EventIn(c: Cast, w: World, p: nat): Event
    requires InPhase(c, w, p)
  {
    if p == 0 then NodeVisit(FollowingVisit(w, c.x, c.id)) else Stack(c.name, CallIn(p))
  }

  lemma ReleaseIsKept(c: Cast, w: World, w': World, ready: bool)
    requires OneRelease(c, w) && w.downloaded <= w'.downloaded
    requires OnlyPatches(w.store.releases, w'.store.releases, c.name, ready)
    ensures OneRelease(c, w') && ItemsOf(c.cfg, w', c.name) == ItemsOf(c.cfg, w, c.name)
  {
    assert w'.store.releases[c.name] == w.store.releases[c.name].(status := w'.store.releases[c.name].status);
  }

  lemma ImageIsKept(c: Cast, w: World, w': World)
    requires OneImage(c, w) && w'.images == w.images && w'.store.nodeImages.Keys == w.store.nodeImages.Keys
    requires w'.store.nodeImages[c.x].spec == w.store.nodeImages[c.x].spec
    ensures OneImage(c, w')
  {
    assert Matching(w', c.x) == Matching(w, c.x);
  }

  lemma VisitTurns(c: Cast, w: World)
    requires InPhase(c, w, 0)
    ensures var e := EventIn(c, w, 0); Faultless(c.cfg, w, e) && InPhase(c, Apply(c.cfg, w, e), 1)
  {
    var v := FollowingVisit(w, c.x, c.id);
    var w' := ApplyVisit(c.cfg, w, v);
    FollowingIsLegit(c.cfg, w, c.x, c.id);
    FaultlessKeepsGood(c.cfg, w, NodeVisit(v));
    AnsweredEffect(c.cfg, w, v);
    ReleaseIsKept(c, w, w', FlagOf(w, c.name));
    ImageIsKept(c, w, w');
  }

  lemma CallIsFaultless(c: Cast, w: World, p: nat)
    requires 1 <= p <= 4 && InPhase(c, w, p)
    ensures LegitStack(c.cfg, w, c.name, CallIn(p)) && FaultlessCall(c.cfg, w, c.name, CallIn(p))
  {
  }

  lemma WriteKeepsObject(c: Cast, w: World)
    requires InPhase(c, w, 3)
    ensures var t := w.tasks[c.name];
            && t.done < |t.items| && WriteAccepted(w, t)
            && WriteOf(w.store, t).nodeImages.Keys == {c.x}
            && WriteOf(w.store, t).nodeImages[c.x].spec == w.store.nodeImages[c.x].spec
  {
  }

  lemma CallKeepsObject(c: Cast, w: World, p: nat)
    requires 1 <= p <= 4 && InPhase(c, w, p) && LegitStack(c.cfg, w, c.name, CallIn(p))
    ensures var w' := ApplyStack(c.cfg, w, c.name, CallIn(p));
            && w'.store.nodeImages.Keys == {c.x} && w'.store.nodeImages[c.x].spec == w.store.nodeImages[c.x].spec
            && (p <= 2 ==> w'.store.nodeImages == w.store.nodeImages)
  {
    StackFrame(c.cfg, w, c.name, CallIn(p));
    if p == 3 {
      WriteKeepsObject(c, w);
    }
  }

  lemma CallKeepsStage(c: Cast, w: World, p: nat)
    requires 1 <= p <= 4 && InPhase(c, w, p) && LegitStack(c.cfg, w, c.name, CallIn(p))
    requires Good(c.cfg, ApplyStack(c.cfg, w, c.name, CallIn(p)))
    ensures var w' := ApplyStack(c.cfg, w, c.name, CallIn(p));
            Stage(c, w') && ItemsOf(c.cfg, w', c.name) == ItemsOf(c.cfg, w, c.name)
  {
    var w' := ApplyStack(c.cfg, w, c.name, CallIn(p));
    CallKeepsObject(c, w, p);
    FlagIsKept(c.cfg, w, c.name, CallIn(p), c.name);
    var ready :| Quiet(w, w', c.name, ready);
    ReleaseIsKept(c, w, w', ready);
    ImageIsKept(c, w, w');
  }

  lemma CallKeepsGood(c: Cast, w: World, p: nat)
    requires 1 <= p <= 4 && InPhase(c, w, p)
    ensures Faultless(c.cfg, w, Stack(c.name, CallIn(p)))
    ensures Good(c.cfg, ApplyStack(c.cfg, w, c.name, CallIn(p)))
  {
    CallIsFaultless(c, w, p);
    FaultlessKeepsGood(c.cfg, w, Stack(c.name, CallIn(p)));
  }

  /** The task in hand, phase by phase. */
  lemma WriteMovesTask(c: Cast, w: World)
    requires InPhase(c, w, 3) && LegitStack(c.cfg, w, c.name, CallIn(3))
    ensures var w' := ApplyStack(c.cfg, w, c.name, CallIn(3));
            w'.tasks == map[c.name := DoneOne(w.tasks[c.name])] && w'.store.releases == w.store.releases
  {
    WriteKeepsObject(c, w);
  }

  lemma FinishEndsTask(c: Cast, w: World)
    requires InPhase(c, w, 4) && LegitStack(c.cfg, w, c.name, CallIn(4))
    ensures ApplyStack(c.cfg, w, c.name, CallIn(4)).tasks == map[]
  {
  }

  lemma BeginStartsTask(c: Cast, w: World)
    requires InPhase(c, w, 1) && LegitStack(c.cfg, w, c.name, Begin)
    ensures ApplyStack(c.cfg, w, c.name, Begin).tasks
         == map[c.name := Task(w.store.releases[c.name], ItemsOf(c.cfg, w, c.name), 0, Unread, {})]
    ensures ApplyStack(c.cfg, w, c.name, Begin).store == w.store
  {
  }

  lemma ReadMovesTask(c: Cast, w: World)
    requires InPhase(c, w, 2) && LegitStack(c.cfg, w, c.name, StackStep.Read)
    ensures var t, w' := w.tasks[c.name], ApplyStack(c.cfg, w, c.name, StackStep.Read);
            w'.tasks == map[c.name := t.(read := Seen(w.store.nodeImages[c.x]))] && w'.store == w.store
  {
  }

  /** A task given as a value is in the phase that its progress says. */
  lemma TaskOf(c: Cast, w: World, t: Task, p: nat)
    requires OneRelease(c, w) && OneImage(c, w) && p > 1 && w.tasks == map[c.name := t]
    requires t.release == w.store.releases[c.name] && t.items == ItemsOf(c.cfg, w, c.name)
    requires t.done == (if p == 4 then 1 else 0)
    requires t.read == (if p == 3 then Seen(w.store.nodeImages[c.x]) else Unread)
    ensures TaskIn(c, w, p)
  {
  }

  /** The state in which a call leaves the circle. */
  ghost function CallTo(c: Cast, w: World, p: nat): World
    requires 1 <= p <= 4 && InPhase(c, w, p) && LegitStack(c.cfg, w, c.name, CallIn(p))
  {
    ApplyStack(c.cfg, w, c.name, CallIn(p))
  }

  lemma CallMovesTask(c: Cast, w: World, p: nat)
    requires 1 <= p <= 3 && InPhase(c, w, p) && LegitStack(c.cfg, w, c.name, CallIn(p))
    requires OneRelease(c, CallTo(c, w, p)) && OneImage(c, CallTo(c, w, p))
    requires ItemsOf(c.cfg, CallTo(c, w, p), c.name) == ItemsOf(c.cfg, w, c.name)
    ensures TaskIn(c, CallTo(c, w, p), p + 1)
  {
    var w' := CallTo(c, w, p);
    if p == 1 {
      BeginStartsTask(c, w);
    } else if p == 2 {
      ReadMovesTask(c, w);
    } else {
      WriteMovesTask(c, w);
    }
    TaskOf(c, w', w'.tasks[c.name], p + 1);
  }

  lemma CallTurns(c: Cast, w: World, p: nat)
    requires 1 <= p <= 4 && InPhase(c, w, p)
    ensures var e := EventIn(c, w, p); Faultless(c.cfg, w, e) && InPhase(c, Apply(c.cfg, w, e), if p == 4 then 0 else p + 1)
  {
    CallKeepsGood(c, w, p);
    CallKeepsStage(c, w, p);
    CallKeepsObject(c, w, p);
    if p == 4 {
      FinishEndsTask(c, w);
    } else {
      CallMovesTask(c, w, p);
    }
  }

  lemma Turns(c: Cast, w: World, p: nat)
    requires p <= 4 && InPhase(c, w, p)
    ensures var e := EventIn(c, w, p); Faultless(c.cfg, w, e) && InPhase(c, Apply(c.cfg, w, e), if p == 4 then 0 else p + 1)
  {
    if p == 0 {
      VisitTurns(c, w);
    } else {
      CallTurns(c, w, p);
    }
  }

  // ---------- the run ----------

  /** The next state, and the event that leads to it. */
  ghost function Turn(c: Cast, w: World, p: nat): World {
    if p <= 4 && InPhase(c, w, p) then
      Turns(c, w, p);
      Apply(c.cfg, w, EventIn(c, w, p))
    else w
  }

  ghost function At(c: Cast, t: nat): World {
    if t == 0 then c.start else Turn(c, At(c, t - 1), (t - 1) % 5)
  }

  ghost function EventAt(c: Cast, t: nat): Event {
    if InPhase(c, At(c, t), t % 5) then EventIn(c, At(c, t), t % 5) else Outside(Tick(0))
  }

  lemma TurnInPhase(c: Cast, w: World, p: nat)
    requires p <= 4 && InPhase(c, w, p)
    ensures InPhase(c, Turn(c, w, p), if p == 4 then 0 else p + 1)
  {
    Turns(c, w, p);
  }

  ghost predicate PhaseAt(c: Cast, t: nat) {
    InPhase(c, At(c, t), t % 5)
  }

  ghost predicate AlwaysInPhase(c: Cast) {
    forall t: nat :: PhaseAt(c, t)
  }

  lemma PhaseNext(c: Cast, t: nat)
    requires t > 0 && PhaseAt(c, t - 1)
    ensures PhaseAt(c, t)
  {
    TurnInPhase(c, At(c, t - 1), (t - 1) % 5);
    NextPhase(t);
  }

  lemma {:induction false} Always(p: nat -> bool, t: nat)
    requires p(0) && forall u: nat :: u > 0 && p(u - 1) ==> p(u)
    ensures p(t)
  {
    if t > 0 {
      Always(p, t - 1);
    }
  }

  lemma StaysInPhase(c: Cast)
    requires InPhase(c, c.start, 0)
    ensures AlwaysInPhase(c)
  {
    var p := (t: nat) => PhaseAt(c, t);
    assert p(0) by {
      assert At(c, 0) == c.start;
    }
    forall t: nat | t > 0 && p(t - 1)
      ensures p(t)
    {
      PhaseNext(c, t);
    }
    forall t: nat
      ensures PhaseAt(c, t)
    {
      Always(p, t);
      assert p(t);
    }
  }

  lemma NextPhase(t: nat)
    requires t > 0
    ensures t % 5 == if (t - 1) % 5 == 4 then 0 else (t - 1) % 5 + 1
  {
  }

  /** A time from t on at which the circle is in phase p. */
  lemma Later(t: nat, p: nat) returns (u: nat)
    requires p <= 4
    ensures t <= u && u % 5 == p
  {
    u := t + (p - t) % 5;
  }

  ghost predicate OnCircle(c: Cast, w: Worlds, e: Events, t: nat) {
    w(t) == At(c, t) && e(t) == EventAt(c, t)
  }

  ghost predicate Circles(c: Cast, w: Worlds, e: Events) {
    forall t: nat :: OnCircle(c, w, e, t)
  }

  lemma AtLeads(c: Cast, t: nat)
    requires AlwaysInPhase(c)
    ensures Leads(c.cfg, At(c, t), EventAt(c, t), At(c, t + 1))
  {
    assert PhaseAt(c, t);
    Turns(c, At(c, t), t % 5);
    assert At(c, t + 1) == Turn(c, At(c, t), t % 5);
  }

  lemma CircleRuns(c: Cast, w: Worlds, e: Events)
    requires AlwaysInPhase(c) && Circles(c, w, e)
    ensures Runs(c.cfg, w, e)
  {
    assert OnCircle(c, w, e, 0) && PhaseAt(c, 0);
    forall t: nat
      ensures Leads(c.cfg, w(t), e(t), w(t + 1))
    {
      assert OnCircle(c, w, e, t) && OnCircle(c, w, e, t + 1);
      AtLeads(c, t);
    }
  }

  /** What the fairness of the run needs of each moment. */
  lemma Moment(c: Cast, w: Worlds, e: Events, t: nat)
    requires AlwaysInPhase(c) && OnCircle(c, w, e, t)
    ensures w(t).store.releases.Keys == {c.name} && w(t).store.nodeImages.Keys == {c.x}
    ensures w(t).images.Keys == {c.id} && w(t).images[c.id].status == Active
    ensures t % 5 == 0 ==> w(t).tasks == map[] && Visits(e(t), c.x)
    ensures t % 5 == 1 ==> Starts(e(t), c.name)
  {
    assert PhaseAt(c, t);
  }

  /** From each moment on everything comes again. */
  lemma ComesAgain(c: Cast, w: Worlds, e: Events, t: nat)
    requires AlwaysInPhase(c) && Circles(c, w, e)
    ensures StartsAgain(e, t, c.name) && VisitedAgain(e, t, c.x) && BecomesActive(w, t, c.id)
    ensures forall n :: Ends(w, t, n)
  {
    var u := Later(t, 1);
    var v := Later(t, 0);
    assert OnCircle(c, w, e, t) && OnCircle(c, w, e, u) && OnCircle(c, w, e, v);
    Moment(c, w, e, t);
    Moment(c, w, e, u);
    Moment(c, w, e, v);
    forall n
      ensures Ends(w, t, n)
    {
      assert n !in w(v).tasks;
    }
  }

  ghost predicate FairAt(cfg: Config, w: Worlds, e: Events, t: nat) {
    && (forall n :: n in w(t).tasks ==> Ends(w, t, n))
    && (forall n :: Startable(cfg, w(t), n) ==> StartsAgain(e, t, n) && StartsAgain(e, t + 1, n))
    && (forall n :: n in w(t).store.nodeImages ==> VisitedAgain(e, t, n))
    && (forall id :: id in w(t).images ==> BecomesActive(w, t, id))
  }

  lemma CircleIsFairAt(c: Cast, w: Worlds, e: Events, t: nat)
    requires AlwaysInPhase(c) && Circles(c, w, e)
    ensures FairAt(c.cfg, w, e, t)
  {
    ComesAgain(c, w, e, t);
    ComesAgain(c, w, e, t + 1);
    OnlyThese(c, w, e, t);
  }

  lemma OnlyThese(c: Cast, w: Worlds, e: Events, t: nat)
    requires AlwaysInPhase(c) && Circles(c, w, e)
    ensures forall n :: Startable(c.cfg, w(t), n) ==> n == c.name
    ensures forall n :: n in w(t).store.nodeImages ==> n == c.x
    ensures forall id :: id in w(t).images ==> id == c.id
  {
    assert OnCircle(c, w, e, t);
    Moment(c, w, e, t);
  }

  lemma AlwaysFair(cfg: Config, w: Worlds, e: Events)
    requires forall t: nat :: FairAt(cfg, w, e, t)
    ensures Fair(cfg, w, e)
  {
    assert FairAt(cfg, w, e, 0);
    forall t: nat, n
      ensures n in w(t).tasks ==> Ends(w, t, n)
      ensures Startable(cfg, w(t), n) ==> StartsAgain(e, t + 1, n)
      ensures n in w(t).store.nodeImages ==> VisitedAgain(e, t, n)
    {
      assert FairAt(cfg, w, e, t);
    }
    forall t: nat, id | id in w(t).images
      ensures BecomesActive(w, t, id)
    {
      assert FairAt(cfg, w, e, t);
    }
  }

  lemma CircleIsFair(c: Cast, w: Worlds, e: Events)
    requires AlwaysInPhase(c) && Circles(c, w, e)
    ensures Fair(c.cfg, w, e)
  {
    forall t: nat
      ensures FairAt(c.cfg, w, e, t)
    {
      CircleIsFairAt(c, w, e, t);
    }
    AlwaysFair(c.cfg, w, e);
  }

  // ---------- the beginning ----------

  /** A new release, its download, its object by hand, the object's first visit, and the image active. */
  lemma StartOf(cfg: Config, r: StackRelease) returns (c: Cast)
    requires WellFormed(cfg) && Named(cfg) && Compatible(cfg.specs) && forall o :: o in cfg.specs ==> !o.hidden
    requires LegitOutside(cfg, EMPTY, AddRelease(r)) && r.identity.name in cfg.catalog
    requires |cfg.catalog[r.identity.name].images| == 1 && Items(r, cfg.catalog[r.identity.name]).Ok?
    ensures c.cfg == cfg && c.name == r.identity.name && Reachable(cfg, c.start) && InPhase(c, c.start, 0)
  {
    var name := r.identity.name;
    var x, o := Items(r, cfg.catalog[name]).value[0].name, cfg.catalog[name].images[0].opts;
    EmptyReachable(cfg);
    var w1 := ApplyOutside(cfg, EMPTY, AddRelease(r));
    ReachableStep(cfg, EMPTY, Outside(AddRelease(r)));
    var w2 := ApplyStack(cfg, w1, name, Early(Downloaded, true));
    ReachableStep(cfg, w1, Stack(name, Early(Downloaded, true)));
    var w3 := WithNode(cfg, w2, x, o);
    var w := ActiveImage(cfg, w3, x);
    c := Cast(cfg, w, name, x, IdFor(o, 0));
    ReachableMeetsInv(cfg, w);
    assert w.tasks == map[];
    assert Items(w.store.releases[name], cfg.catalog[name]) == Items(r, cfg.catalog[name]);
  }

  lemma ActiveImage(cfg: Config, w: World, x: string) returns (w': World)
    requires Reachable(cfg, w) && w.store.nodeImages.Keys == {x} && w.images == map[]
    requires w.store.nodeImages[x].spec.opts.name != "" && !w.store.nodeImages[x].spec.opts.hidden
    ensures Reachable(cfg, w') && w'.store.nodeImages.Keys == {x} && w'.store.releases == w.store.releases
    ensures w'.downloaded == w.downloaded && w'.tasks == w.tasks
    ensures w'.store.nodeImages[x].spec == w.store.nodeImages[x].spec
    ensures var o := w.store.nodeImages[x].spec.opts;
            w'.images == map[IdFor(o, w.serial) := Image(o, true, Active)] && IdFor(o, w.serial) in Matching(w', x)
  {
    var o, v := w.store.nodeImages[x].spec.opts, CreatingVisit(w, x);
    var id := IdFor(o, w.serial);
    CreatingVisitCreates(cfg, w, x);
    VisitTouchesStatus(cfg, w, v);
    var w1 := ApplyVisit(cfg, w, v);
    ReachableStep(cfg, w, NodeVisit(v));
    var images := w1.images[id := Image(o, true, Active)];
    assert LegitOutside(cfg, w1, Drift(images));
    w' := ApplyOutside(cfg, w1, Drift(images));
    ReachableStep(cfg, w1, Outside(Drift(images)));
  }

  /** For every release with one node image there is a fair faultless run from a reachable state that has it. */
  lemma FairRunsExist(cfg: Config, r: StackRelease) returns (w: Worlds, e: Events)
    requires WellFormed(cfg) && Named(cfg) && Compatible(cfg.specs) && forall o :: o in cfg.specs ==> !o.hidden
    requires LegitOutside(cfg, EMPTY, AddRelease(r)) && r.identity.name in cfg.catalog
    requires |cfg.catalog[r.identity.name].images| == 1 && Items(r, cfg.catalog[r.identity.name]).Ok?
    ensures Runs(cfg, w, e) && Fair(cfg, w, e) && Wanted(cfg, w(0), r.identity.name) && Reachable(cfg, w(0))
  {
    var c := StartOf(cfg, r);
    w := (t: nat) => At(c, t);
    e := (t: nat) => EventAt(c, t);
    assert Circles(c, w, e);
    StaysInPhase(c);
    CircleRuns(c, w, e);
    CircleIsFair(c, w, e);
  }
}
