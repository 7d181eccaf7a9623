/** Every fair run without faults makes a release ready, however the calls of all reconciliations interleave. */
module FairRuns {
  import opened Wrappers
  import opened Glance
  import opened Cluster
  import opened StackReconciler
  import opened Protocol
  import opened Measures
  import opened Convergence
  import opened FaultlessRuns
  import opened Unrest

  type Worlds = nat -> World
  type Events = nat -> Event

  ghost predicate Leads(cfg: Config, w: World, e: Event, w': World) {
    Faultless(cfg, w, e) && w' == Apply(cfg, w, e)
  }

  /** An endless faultless run: w(t) is the state before event e(t). */
  ghost predicate Runs(cfg: Config, w: Worlds, e: Events) {
    Good(cfg, w(0)) && forall t: nat {:trigger e(t)} :: Leads(cfg, w(t), e(t), w(t + 1))
  }

  ghost predicate Startable(cfg: Config, w: World, n: string) {
    n in w.store.releases && n in cfg.catalog && Items(w.store.releases[n], cfg.catalog[n]).Ok?
  }

  /** What a reconciliation of a release returns with its last call; an error if its patch fails. */
  ghost function Returned(w: World, n: string, s: StackStep): Option<Return>
    requires s.Finish? ==> n in w.tasks
  {
    match s
    case Early(exit, kept) => Some(if kept then ResultOf(exit) else Failed)
    case Begin | Read => None
    case Write(answer, kept) => if answer == Accepted then None else Some(if kept then ResultOf(WriteFailed) else Failed)
    case Stop(kept) => Some(if kept then ResultOf(ListFailed) else Failed)
    case Finish(kept) => Some(if kept then ResultOf(Judgement(w, n)) else Failed)
  }

  /** The event ends a reconciliation of the release that asks to be called again. */
  ghost predicate AsksAgain(cfg: Config, w: World, x: Event, n: string) {
    Legit(cfg, w, x) && x.Stack? && x.release == n && Returned(w, n, x.step).Some? && Returned(w, n, x.step) != Some(Done)
  }

  /** Every reconciliation in flight ends; releases with a valid tag are reconciled at first, and again where a
      reconciliation asks to be called again; objects are reconciled again and again; and the image service makes
      every image active sooner or later. */
  ghost predicate Fair(cfg: Config, w: Worlds, e: Events) {
    && (forall t: nat, n {:trigger Ends(w, t, n)} :: n in w(t).tasks ==> Ends(w, t, n))
    && (forall n {:trigger StartsAgain(e, 0, n)} :: Startable(cfg, w(0), n) && n !in w(0).tasks ==> StartsAgain(e, 0, n))
    && (forall t: nat, n {:trigger AsksAgain(cfg, w(t), e(t), n)} ::
          Startable(cfg, w(t), n) && AsksAgain(cfg, w(t), e(t), n) ==> StartsAgain(e, t + 1, n))
    && (forall t: nat, n {:trigger VisitedAgain(e, t, n)} :: n in w(t).store.nodeImages ==> VisitedAgain(e, t, n))
    && (forall t: nat, id {:trigger BecomesActive(w, t, id)} :: id in w(t).images ==> BecomesActive(w, t, id))
  }

  ghost predicate Ends(w: Worlds, t: nat, n: string) {
    exists u: nat :: t <= u && n !in w(u).tasks
  }

  predicate Starts(x: Event, n: string) {
    x == Stack(n, Begin) || x == Stack(n, Early(Downloaded, true))
  }

  ghost predicate StartsAgain(e: Events, t: nat, n: string) {
    exists u: nat :: t <= u && Starts(e(u), n)
  }

  predicate Visits(x: Event, n: string) {
    x.NodeVisit? && x.visit.name == n
  }

  ghost predicate VisitedAgain(e: Events, t: nat, n: string) {
    exists u: nat :: t <= u && Visits(e(u), n)
  }

  ghost predicate BecomesActive(w: Worlds, t: nat, id: ImageId) {
    exists u: nat :: t <= u && id in w(u).images && w(u).images[id].status == Active
  }

  // ---------- every state is good ----------

  ghost predicate StepIsGood(cfg: Config, w: Worlds, e: Events, t: nat) {
    Good(cfg, w(t)) && Leads(cfg, w(t), e(t), w(t + 1))
  }

  ghost predicate Steady(cfg: Config, w: Worlds, e: Events) {
    forall t: nat :: StepIsGood(cfg, w, e, t)
  }

  lemma {:induction false} StaysGood(cfg: Config, w: Worlds, e: Events, t: nat)
    requires Runs(cfg, w, e)
    ensures Good(cfg, w(t))
  {
    if t > 0 {
      StaysGood(cfg, w, e, t - 1);
      assert Leads(cfg, w(t - 1), e(t - 1), w(t - 1 + 1));
      FaultlessKeepsGood(cfg, w(t - 1), e(t - 1));
    }
  }

  lemma RunsAreSteady(cfg: Config, w: Worlds, e: Events)
    requires Runs(cfg, w, e)
    ensures Steady(cfg, w, e)
  {
    forall t: nat
      ensures StepIsGood(cfg, w, e, t)
    {
      StaysGood(cfg, w, e, t);
      assert Leads(cfg, w(t), e(t), w(t + 1));
    }
  }

  lemma WantedOnce(cfg: Config, w: World, e: Event, name: string)
    requires Good(cfg, w) && Wanted(cfg, w, name) && Faultless(cfg, w, e)
    ensures Wanted(cfg, Apply(cfg, w, e), name)
  {
    FaultlessKeepsGood(cfg, w, e);
    RankNeverRises(cfg, w, e, name);
  }

  lemma WantedNext(cfg: Config, w: Worlds, e: Events, name: string, t: nat)
    requires Steady(cfg, w, e) && Wanted(cfg, w(t), name)
    ensures Wanted(cfg, w(t + 1), name)
  {
    assert StepIsGood(cfg, w, e, t);
    WantedOnce(cfg, w(t), e(t), name);
  }

  lemma {:induction false} StaysWanted(cfg: Config, w: Worlds, e: Events, name: string, t: nat)
    requires Steady(cfg, w, e) && Wanted(cfg, w(0), name)
    ensures Wanted(cfg, w(t), name)
  {
    if t > 0 {
      StaysWanted(cfg, w, e, name, t - 1);
      WantedNext(cfg, w, e, name, t - 1);
      assert t - 1 + 1 == t;
    }
  }

  // ---------- reconciliations of stored releases ----------

  lemma {:induction false} CurrentStays(cfg: Config, w: Worlds, e: Events, k: string, t: nat, u: nat)
    requires Steady(cfg, w, e) && t <= u && Current(w(t), k)
    ensures Current(w(u), k)
    decreases u - t
  {
    if t < u {
      assert StepIsGood(cfg, w, e, t);
      FaultlessKeepsCurrent(cfg, w(t), e(t), k);
      CurrentStays(cfg, w, e, k, t + 1, u);
    }
  }

  lemma {:induction false} BecomeCurrent(cfg: Config, w: Worlds, e: Events, ks: set<string>) returns (t: nat)
    requires Steady(cfg, w, e) && Fair(cfg, w, e)
    ensures forall k :: k in ks ==> Current(w(t), k)
  {
    if ks == {} {
      t := 0;
    } else {
      var k :| k in ks;
      var t1 := BecomeCurrent(cfg, w, e, ks - {k});
      t := NextEnd(cfg, w, e, t1, k);
      forall j | j in ks
        ensures Current(w(t), j)
      {
        if j != k {
          CurrentStays(cfg, w, e, j, t1, t);
        }
      }
    }
  }

  lemma NextEnd(cfg: Config, w: Worlds, e: Events, t: nat, k: string) returns (u: nat)
    requires Fair(cfg, w, e)
    ensures t <= u && k !in w(u).tasks
  {
    if k in w(t).tasks {
      assert Ends(w, t, k);
      u :| t <= u && k !in w(u).tasks;
    } else {
      u := t;
    }
  }

  ghost predicate AllCurrent(w: Worlds, t: nat) {
    forall k :: Current(w(t), k)
  }

  lemma AllBecomeCurrent(cfg: Config, w: Worlds, e: Events) returns (t: nat)
    requires Steady(cfg, w, e) && Fair(cfg, w, e)
    ensures AllCurrent(w, t)
  {
    t := BecomeCurrent(cfg, w, e, w(0).tasks.Keys);
    forall k
      ensures Current(w(t), k)
    {
      if k !in w(0).tasks {
        CurrentStays(cfg, w, e, k, 0, t);
      }
    }
  }

  lemma AllStayCurrent(cfg: Config, w: Worlds, e: Events, t: nat, u: nat)
    requires Steady(cfg, w, e) && AllCurrent(w, t) && t <= u
    ensures AllCurrent(w, u)
  {
    forall k
      ensures Current(w(u), k)
    {
      CurrentStays(cfg, w, e, k, t, u);
    }
  }

  // ---------- objects and images come to rest ----------

  lemma RestsOnce(cfg: Config, w: Worlds, e: Events, t: nat)
    requires Steady(cfg, w, e) && AllCurrent(w, t)
    ensures ComesToRest(cfg, w(t), w(t + 1))
  {
    assert StepIsGood(cfg, w, e, t);
    if e(t).Stack? {
      assert Current(w(t), e(t).release);
    }
    FaultlessRests(cfg, w(t), e(t));
  }

  lemma {:induction false} RestsOn(cfg: Config, w: Worlds, e: Events, t: nat, u: nat)
    requires Steady(cfg, w, e) && AllCurrent(w, t) && t <= u
    ensures ComesToRest(cfg, w(t), w(u))
    decreases u - t
  {
    if t < u {
      RestsOnce(cfg, w, e, t);
      AllStayCurrent(cfg, w, e, t, t + 1);
      RestsOn(cfg, w, e, t + 1, u);
      RestComposes(cfg, w(t), w(t + 1), w(u));
    }
  }

  ghost predicate Unchanged(w: Worlds, t: nat, u: nat) {
    w(u).store.nodeImages == w(t).store.nodeImages && w(u).images == w(t).images
  }

  ghost predicate AtRest(w: Worlds, t: nat) {
    forall u: nat :: t <= u ==> Unchanged(w, t, u)
  }

  ghost predicate LowerLater(cfg: Config, w: Worlds, t: nat, u: nat) {
    t <= u && Below(UnrestOf(cfg, w(u)), UnrestOf(cfg, w(t)))
  }

  lemma {:induction false} ComeToRest(cfg: Config, w: Worlds, e: Events, t: nat) returns (u: nat)
    requires Steady(cfg, w, e) && AllCurrent(w, t)
    ensures t <= u && AtRest(w, u) && AllCurrent(w, u)
    decreases UnrestOf(cfg, w(t)).a, UnrestOf(cfg, w(t)).b, UnrestOf(cfg, w(t)).c,
              UnrestOf(cfg, w(t)).d, UnrestOf(cfg, w(t)).e, UnrestOf(cfg, w(t)).f
  {
    if v: nat :| LowerLater(cfg, w, t, v) {
      AllStayCurrent(cfg, w, e, t, v);
      u := ComeToRest(cfg, w, e, v);
    } else {
      u := t;
      forall v: nat | t <= v
        ensures Unchanged(w, t, v)
      {
        RestsOn(cfg, w, e, t, v);
        assert !LowerLater(cfg, w, t, v);
      }
    }
  }

  // ---------- at rest everything is settled ----------

  lemma NextActive(cfg: Config, w: Worlds, e: Events, t: nat, id: ImageId)
    requires Fair(cfg, w, e) && AtRest(w, t) && id in w(t).images
    ensures w(t).images[id].status == Active
  {
    assert BecomesActive(w, t, id);
    var u: nat :| t <= u && id in w(u).images && w(u).images[id].status == Active;
    assert Unchanged(w, t, u);
  }

  lemma NextVisit(cfg: Config, w: Worlds, e: Events, t: nat, n: string) returns (u: nat)
    requires Fair(cfg, w, e) && n in w(t).store.nodeImages
    ensures t <= u && Visits(e(u), n)
  {
    assert VisitedAgain(e, t, n);
    u :| t <= u && Visits(e(u), n);
  }

  /** A visit that changes nothing, where all images are active, finds its object settled. */
  lemma IdleVisitSettled(cfg: Config, w: World, v: Visit)
    requires Good(cfg, w) && LegitVisit(w, v) && Answered(w, v)
    requires forall id :: id in w.images ==> w.images[id].status == Active
    requires ApplyVisit(cfg, w, v).images == w.images && ApplyVisit(cfg, w, v).store.nodeImages == w.store.nodeImages
    ensures Settled(w, v.name)
  {
    var w1 := w.(images := v.between);
    assert v.between == w.images;
    AnsweredEffect(cfg, w, v);
    assert Matching(w, v.name) != {};
    var id := v.answers.listing.ids[0];
    assert id in Matching(w, v.name);
  }

  lemma SettledAtRest(cfg: Config, w: Worlds, e: Events, t: nat, n: string)
    requires Steady(cfg, w, e) && Fair(cfg, w, e) && AtRest(w, t) && n in w(t).store.nodeImages
    requires forall id :: id in w(t).images ==> w(t).images[id].status == Active
    ensures Settled(w(t), n)
  {
    var u := NextVisit(cfg, w, e, t, n);
    assert StepIsGood(cfg, w, e, u);
    assert Unchanged(w, t, u) && Unchanged(w, t, u + 1);
    IdleVisitSettled(cfg, w(u), e(u).visit);
    SameSettled(w(t), w(u), n);
  }

  lemma SameSettled(w: World, w': World, n: string)
    requires w'.store.nodeImages == w.store.nodeImages && w'.images == w.images && n in w.store.nodeImages
    ensures Settled(w', n) <==> Settled(w, n)
  {
    assert Matching(w', n) == Matching(w, n);
  }

  ghost predicate AllSettled(w: World) {
    forall n :: n in w.store.nodeImages ==> Settled(w, n)
  }

  lemma AllSettledAtRest(cfg: Config, w: Worlds, e: Events, t: nat, u: nat)
    requires Steady(cfg, w, e) && Fair(cfg, w, e) && AtRest(w, t) && t <= u
    ensures AllSettled(w(u))
  {
    forall id | id in w(t).images
      ensures w(t).images[id].status == Active
    {
      NextActive(cfg, w, e, t, id);
    }
    assert Unchanged(w, t, u);
    forall n | n in w(u).store.nodeImages
      ensures Settled(w(u), n)
    {
      SettledAtRest(cfg, w, e, t, n);
      SameSettled(w(t), w(u), n);
    }
  }

  // ---------- at rest a reconciliation gets through ----------

  /** A reconciliation of the stored release that nobody came between. */
  ghost predicate InHand(w: World, name: string) {
    && name in w.tasks && Current(w, name) && w.tasks[name].lost == {}
    && var t := w.tasks[name];
       && (t.read.Seen? ==> t.done < |t.items| && t.items[t.done].name in w.store.nodeImages
                            && w.store.nodeImages[t.items[t.done].name] == t.read.copy)
       && (t.read.Absent? ==> t.done < |t.items| && t.items[t.done].name !in w.store.nodeImages)
  }

  predicate Finishes(x: Event, name: string) {
    x.Stack? && x.release == name && x.step.Finish?
  }

  lemma CallInHand(cfg: Config, w: World, s: StackStep, name: string)
    requires Good(cfg, w) && LegitStack(cfg, w, name, s) && FaultlessCall(cfg, w, name, s) && InHand(w, name) && !s.Finish?
    requires ApplyStack(cfg, w, name, s).store.nodeImages == w.store.nodeImages
    ensures InHand(ApplyStack(cfg, w, name, s), name)
  {
    CallKeepsCurrent(cfg, w, name, s, name);
  }

  lemma OtherCallInHand(cfg: Config, w: World, n: string, s: StackStep, name: string)
    requires LegitStack(cfg, w, n, s) && InHand(w, name) && n != name
    requires ApplyStack(cfg, w, n, s).store.nodeImages == w.store.nodeImages
    ensures InHand(ApplyStack(cfg, w, n, s), name)
  {
    CallKeepsCurrent(cfg, w, n, s, name);
    assert name in ApplyStack(cfg, w, n, s).tasks && ApplyStack(cfg, w, n, s).tasks[name] == w.tasks[name];
  }

  lemma StaysInHand(cfg: Config, w: World, e: Event, name: string)
    requires Good(cfg, w) && Faultless(cfg, w, e) && InHand(w, name) && !Finishes(e, name)
    requires Apply(cfg, w, e).store.nodeImages == w.store.nodeImages
    ensures InHand(Apply(cfg, w, e), name)
  {
    match e {
      case Outside(s) =>
      case NodeVisit(v) =>
      case Stack(n, s) =>
        if n == name {
          CallInHand(cfg, w, s, name);
        } else {
          OtherCallInHand(cfg, w, n, s, name);
        }
    }
  }

  lemma StaysInHandAt(cfg: Config, w: Worlds, e: Events, t: nat, name: string, u: nat)
    requires Steady(cfg, w, e) && AtRest(w, t) && t <= u && InHand(w(u), name) && !Finishes(e(u), name)
    ensures InHand(w(u + 1), name)
  {
    assert StepIsGood(cfg, w, e, u);
    assert Unchanged(w, t, u) && Unchanged(w, t, u + 1);
    StaysInHand(cfg, w(u), e(u), name);
  }

  lemma {:induction false} FindFinish(cfg: Config, w: Worlds, e: Events, t: nat, name: string, u: nat, end: nat) returns (v: nat)
    requires Steady(cfg, w, e) && AtRest(w, t) && t <= u <= end && InHand(w(u), name) && name !in w(end).tasks
    ensures u <= v < end && Finishes(e(v), name) && InHand(w(v), name)
    decreases end - u
  {
    assert u != end;
    if Finishes(e(u), name) {
      v := u;
    } else {
      StaysInHandAt(cfg, w, e, t, name, u);
      v := FindFinish(cfg, w, e, t, name, u + 1, end);
    }
  }

  /** The end of a reconciliation that nobody came between, where all objects are settled. */
  lemma FinishingFinishes(cfg: Config, w: World, name: string, kept: bool)
    requires Good(cfg, w) && Wanted(cfg, w, name) && name in w.downloaded && InHand(w, name) && AllSettled(w)
    requires LegitStack(cfg, w, name, Finish(kept)) && FaultlessCall(cfg, w, name, Finish(kept))
    ensures var w' := ApplyStack(cfg, w, name, Finish(kept)); Wanted(cfg, w', name) && Finished(cfg, w', name)
  {
    var w' := ApplyStack(cfg, w, name, Finish(kept));
    InHandOwnsAll(cfg, w, name);
    SettledIsJudgedReady(cfg, w, name);
    FinishPatches(cfg, w, name, kept);
    assert Owning(w', name) == Owning(w, name);
    SameImagesSameSets(cfg, w, w', name);
  }

  lemma InHandOwnsAll(cfg: Config, w: World, name: string)
    requires Good(cfg, w) && Wanted(cfg, w, name) && InHand(w, name) && AllSettled(w)
    requires w.tasks[name].done == |w.tasks[name].items|
    ensures Missing(cfg, w, name) == {} && Unsettled(w, name) == {}
  {
    var t := w.tasks[name];
    assert ItemsOf(cfg, w, name) == t.items;
    forall i | 0 <= i < |t.items|
      ensures t.items[i].name in Owning(w, name)
    {
      assert Owns(w.store, t.release.identity, t.items[i].name);
    }
  }

  lemma {:induction false} StaysDownloaded(cfg: Config, w: Worlds, e: Events, name: string, t: nat, u: nat)
    requires Steady(cfg, w, e) && t <= u && name in w(t).downloaded
    ensures name in w(u).downloaded
    decreases u - t
  {
    if t < u {
      assert StepIsGood(cfg, w, e, t);
      OnceDownloaded(cfg, w(t), e(t), name);
      StaysDownloaded(cfg, w, e, name, t + 1, u);
    }
  }

  lemma OnceDownloaded(cfg: Config, w: World, e: Event, name: string)
    requires Legit(cfg, w, e) && name in w.downloaded
    ensures name in Apply(cfg, w, e).downloaded
  {
  }

  /** With the assets there, a start is the beginning of a reconciliation that is in hand. */
  lemma StartsInHand(cfg: Config, w: World, e: Event, name: string)
    requires Faultless(cfg, w, e) && Starts(e, name) && name in w.downloaded
    ensures InHand(Apply(cfg, w, e), name)
  {
  }

  lemma StartsInHandAt(cfg: Config, w: Worlds, e: Events, name: string, u: nat)
    requires Steady(cfg, w, e) && Starts(e(u), name) && name in w(u).downloaded
    ensures InHand(w(u + 1), name)
  {
    assert StepIsGood(cfg, w, e, u);
    StartsInHand(cfg, w(u), e(u), name);
  }

  lemma FinishedAt(cfg: Config, w: Worlds, e: Events, name: string, t: nat, got: nat, v: nat)
    requires Steady(cfg, w, e) && Fair(cfg, w, e) && Wanted(cfg, w(0), name) && AtRest(w, t) && t <= got <= v
    requires name in w(got).downloaded && Finishes(e(v), name) && InHand(w(v), name)
    ensures Wanted(cfg, w(v + 1), name) && Finished(cfg, w(v + 1), name)
  {
    StaysWanted(cfg, w, e, name, v);
    StaysDownloaded(cfg, w, e, name, got, v);
    AllSettledAtRest(cfg, w, e, t, v);
    assert StepIsGood(cfg, w, e, v);
    FinishingFinishes(cfg, w(v), name, e(v).step.kept);
  }

  // ---------- a release that is not ready is called again ----------

  /** A reconciliation that leaves its release not ready asks to be called again, unless it lacks an assets client. */
  lemma NotReadyAsksAgain(cfg: Config, w: World, n: string, s: StackStep)
    requires LegitStack(cfg, w, n, s) && Returned(w, n, s) == Some(Done)
    ensures FlagOf(ApplyStack(cfg, w, n, s), n) || s == Early(NoAssetsClient, true)
  {
  }

  /** In flight, or ready, or to be started. */
  ghost predicate Minded(w: Worlds, e: Events, t: nat, n: string) {
    n in w(t).tasks || FlagOf(w(t), n) || StartsAgain(e, t, n)
  }

  ghost predicate SameFor(w: World, w': World, n: string) {
    (n in w'.tasks <==> n in w.tasks) && (FlagOf(w', n) <==> FlagOf(w, n))
  }

  lemma OtherCallMinds(cfg: Config, w: World, k: string, s: StackStep, n: string)
    requires LegitStack(cfg, w, k, s) && k != n
    ensures SameFor(w, ApplyStack(cfg, w, k, s), n)
  {
  }

  lemma OtherEventMinds(cfg: Config, w: World, e: Event, n: string)
    requires Faultless(cfg, w, e) && !(e.Stack? && e.release == n)
    ensures SameFor(w, Apply(cfg, w, e), n)
  {
    match e {
      case Outside(s) =>
      case NodeVisit(v) => assert ApplyVisit(cfg, w, v).store.releases == w.store.releases;
      case Stack(k, s) => OtherCallMinds(cfg, w, k, s, n);
    }
  }

  lemma OwnEventMinds(cfg: Config, w: World, n: string, s: StackStep)
    requires Faultless(cfg, w, Stack(n, s)) && Wanted(cfg, w, n)
    ensures var w' := ApplyStack(cfg, w, n, s); n in w'.tasks || FlagOf(w', n) || AsksAgain(cfg, w, Stack(n, s), n)
    ensures var w' := ApplyStack(cfg, w, n, s); FlagOf(w, n) && !FlagOf(w', n) ==> n !in w'.tasks
  {
    if Returned(w, n, s) == Some(Done) {
      NotReadyAsksAgain(cfg, w, n, s);
    }
  }

  lemma MindedNext(cfg: Config, w: Worlds, e: Events, n: string, t: nat)
    requires Steady(cfg, w, e) && Fair(cfg, w, e) && Wanted(cfg, w(t), n) && Minded(w, e, t, n)
    ensures Minded(w, e, t + 1, n)
  {
    EventMinds(cfg, w, e, n, t);
    if AsksAgain(cfg, w(t), e(t), n) {
      assert StartsAgain(e, t + 1, n);
    } else if StartsAgain(e, t, n) && SameFor(w(t), w(t + 1), n) && !Starts(e(t), n) {
      LaterStart(e, t, n);
    }
  }

  lemma LaterStart(e: Events, t: nat, n: string)
    requires StartsAgain(e, t, n) && !Starts(e(t), n)
    ensures StartsAgain(e, t + 1, n)
  {
    var u: nat :| t <= u && Starts(e(u), n);
    assert t + 1 <= u;
  }

  lemma EventMinds(cfg: Config, w: Worlds, e: Events, n: string, t: nat)
    requires Steady(cfg, w, e) && Wanted(cfg, w(t), n)
    ensures || n in w(t + 1).tasks || FlagOf(w(t + 1), n) || AsksAgain(cfg, w(t), e(t), n)
            || (SameFor(w(t), w(t + 1), n) && !Starts(e(t), n))
  {
    assert StepIsGood(cfg, w, e, t);
    if e(t).Stack? && e(t).release == n {
      OwnEventMinds(cfg, w(t), n, e(t).step);
    } else {
      OtherEventMinds(cfg, w(t), e(t), n);
    }
  }

  lemma {:induction false} AlwaysMinded(cfg: Config, w: Worlds, e: Events, n: string, t: nat)
    requires Steady(cfg, w, e) && Fair(cfg, w, e) && Wanted(cfg, w(0), n)
    ensures Minded(w, e, t, n)
  {
    if t > 0 {
      AlwaysMinded(cfg, w, e, n, t - 1);
      StaysWanted(cfg, w, e, n, t - 1);
      MindedNext(cfg, w, e, n, t - 1);
      assert t - 1 + 1 == t;
    }
  }

  ghost predicate Idle(w: Worlds, t: nat, n: string) {
    n !in w(t).tasks && !FlagOf(w(t), n)
  }

  lemma FlagNext(cfg: Config, w: Worlds, e: Events, n: string, t: nat)
    requires Steady(cfg, w, e) && Wanted(cfg, w(t), n) && FlagOf(w(t), n) && !Idle(w, t + 1, n)
    ensures FlagOf(w(t + 1), n)
  {
    assert StepIsGood(cfg, w, e, t);
    if e(t).Stack? && e(t).release == n {
      OwnEventMinds(cfg, w(t), n, e(t).step);
    } else {
      OtherEventMinds(cfg, w(t), e(t), n);
    }
  }

  lemma {:induction false} FlagLasts(cfg: Config, w: Worlds, e: Events, n: string, t: nat, u: nat)
    requires Steady(cfg, w, e) && Wanted(cfg, w(0), n) && FlagOf(w(t), n) && t <= u
    requires forall v: nat :: t <= v ==> !Idle(w, v, n)
    ensures FlagOf(w(u), n)
    decreases u - t
  {
    if t < u {
      StaysWanted(cfg, w, e, n, t);
      assert !Idle(w, t + 1, n);
      FlagNext(cfg, w, e, n, t);
      FlagLasts(cfg, w, e, n, t + 1, u);
    }
  }

  ghost predicate ReadyFrom(w: Worlds, t: nat, n: string) {
    forall u: nat :: t <= u ==> FlagOf(w(u), n)
  }

  /** Sooner or later the release is not in flight and not ready, or it is ready for good. */
  lemma IdleOrReady(cfg: Config, w: Worlds, e: Events, n: string, t: nat) returns (u: nat)
    requires Steady(cfg, w, e) && Fair(cfg, w, e) && Wanted(cfg, w(0), n)
    ensures t <= u && (Idle(w, u, n) || ReadyFrom(w, u, n))
  {
    if v: nat :| t <= v && Idle(w, v, n) {
      u := v;
    } else {
      u := NextEnd(cfg, w, e, t, n);
      assert !Idle(w, u, n);
      forall v: nat | u <= v
        ensures FlagOf(w(v), n)
      {
        FlagLasts(cfg, w, e, n, u, v);
      }
    }
  }

  lemma NextStart(cfg: Config, w: Worlds, e: Events, n: string, t: nat) returns (u: nat)
    requires Steady(cfg, w, e) && StartsAgain(e, t, n)
    ensures t <= u && Starts(e(u), n) && n !in w(u).tasks && n in w(u + 1).downloaded
  {
    u :| t <= u && Starts(e(u), n);
    assert StepIsGood(cfg, w, e, u);
  }

  /** A first start may find no assets; then it downloads them and asks for a second, which begins. */
  lemma DownloadAsksAgain(cfg: Config, w: Worlds, e: Events, n: string, t: nat)
    requires Steady(cfg, w, e) && Fair(cfg, w, e) && Wanted(cfg, w(t), n) && Starts(e(t), n) && n !in w(t).downloaded
    ensures StartsAgain(e, t + 1, n)
  {
    assert StepIsGood(cfg, w, e, t);
    assert AsksAgain(cfg, w(t), e(t), n);
  }

  lemma BeginsLater(cfg: Config, w: Worlds, e: Events, n: string, t: nat) returns (u: nat)
    requires Steady(cfg, w, e) && Fair(cfg, w, e) && Wanted(cfg, w(0), n) && Idle(w, t, n)
    ensures t <= u && n in w(u).downloaded && InHand(w(u), n)
  {
    AlwaysMinded(cfg, w, e, n, t);
    var first := NextStart(cfg, w, e, n, t);
    if n in w(first).downloaded {
      StartsInHandAt(cfg, w, e, n, first);
      u := first + 1;
    } else {
      StaysWanted(cfg, w, e, n, first);
      DownloadAsksAgain(cfg, w, e, n, first);
      var second := NextStart(cfg, w, e, n, first + 1);
      StaysDownloaded(cfg, w, e, n, first + 1, second);
      StartsInHandAt(cfg, w, e, n, second);
      u := second + 1;
    }
  }

  lemma Finishing(cfg: Config, w: Worlds, e: Events, name: string, t: nat, begun: nat) returns (u: nat)
    requires Steady(cfg, w, e) && Fair(cfg, w, e) && Wanted(cfg, w(0), name) && AtRest(w, t)
    requires t <= begun && name in w(begun).downloaded && InHand(w(begun), name)
    ensures Wanted(cfg, w(u), name) && Finished(cfg, w(u), name)
  {
    var end := NextEnd(cfg, w, e, begun, name);
    var v := FindFinish(cfg, w, e, t, name, begun, end);
    FinishedAt(cfg, w, e, name, t, begun, v);
    u := v + 1;
  }

  // ---------- the theorem ----------

  lemma {:induction false} FinishedForGood(cfg: Config, w: Worlds, e: Events, name: string, t: nat, u: nat)
    requires Steady(cfg, w, e) && t <= u && Wanted(cfg, w(t), name) && Finished(cfg, w(t), name)
    ensures name in w(u).store.releases && w(u).store.releases[name].status.ready
    decreases u - t
  {
    if t < u {
      assert StepIsGood(cfg, w, e, t);
      FaultlessKeepsGood(cfg, w(t), e(t));
      FinishedStays(cfg, w(t), e(t), name);
      FinishedForGood(cfg, w, e, name, t + 1, u);
    }
  }

  /** In every fair run without faults, with the calls of all reconciliations and the visits of all objects in any
      order and any number of them in flight, a release becomes ready at some time and is ready ever after. */
  lemma FairRunsConverge(cfg: Config, w: Worlds, e: Events, name: string) returns (t: nat)
    requires Runs(cfg, w, e) && Fair(cfg, w, e) && Wanted(cfg, w(0), name)
    ensures forall u: nat :: t <= u ==> name in w(u).store.releases && w(u).store.releases[name].status.ready
  {
    RunsAreSteady(cfg, w, e);
    var t0 := AllBecomeCurrent(cfg, w, e);
    var t1 := ComeToRest(cfg, w, e, t0);
    t := IdleOrReady(cfg, w, e, name, t1);
    if Idle(w, t, name) {
      var begun := BeginsLater(cfg, w, e, name, t);
      t := Finishing(cfg, w, e, name, t1, begun);
      forall u: nat | t <= u
        ensures FlagOf(w(u), name)
      {
        FinishedForGood(cfg, w, e, name, t, u);
      }
    }
    assert ReadyFrom(w, t, name);
  }
}
