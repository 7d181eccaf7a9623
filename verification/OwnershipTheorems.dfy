/** Over every run: releases that share an OpenStackNodeImageRelease never lose each other's references,
    however their reads and writes interleave. */
module OwnershipTheorems {
  import opened Wrappers
  import opened Owners
  import opened Cluster
  import opened StackReconciler
  import opened Protocol
  import opened Invariants

  lemma AdoptionKeepsReferences(s: Store, t: Store, target: string, owner: Identity, name: string, r: OwnerRef)
    requires Adopts(s, t, target, owner) && name in s.nodeImages && r in s.nodeImages[name].owners
    ensures name in t.nodeImages
    ensures || r in t.nodeImages[name].owners
            || (SameReferent(r, Generate(owner)) && Generate(owner) in t.nodeImages[name].owners)
  {
    EnsureKeepsOthers(s.nodeImages[name].owners, Generate(owner));
  }

  /** In one step a reference is lost only to meddling, or replaced by the writer's own reference to the same owner. */
  lemma ReferenceSurvivesStep(cfg: Config, w: World, e: Event, name: string, r: OwnerRef)
    requires WellFormed(cfg) && Inv(cfg, w) && Legit(cfg, w, e) && !Meddles(e, name)
    requires name in w.store.nodeImages && r in w.store.nodeImages[name].owners
    ensures var w' := Apply(cfg, w, e);
            && name in w'.store.nodeImages
            && (r in w'.store.nodeImages[name].owners
                || (&& e.Stack? && e.step.Write?
                    && var mine := Generate(w.tasks[e.release].release.identity);
                       SameReferent(r, mine) && mine in w'.store.nodeImages[name].owners))
  {
    match e {
      case Outside(s) => OutsideFrame(cfg, w, s, name);
      case NodeVisit(v) => VisitFrame(cfg, w, v, name);
      case Stack(n, s) =>
        StackFrame(cfg, w, n, s);
        if s.Write? && s.answer != Rejected(false) {
          var t := w.tasks[n];
          WriteAdopts(w, n);
          AdoptionKeepsReferences(w.store, WriteOf(w.store, t), t.items[t.done].name, t.release.identity, name, r);
        }
    }
  }

  lemma OwnerSurvivesStep(cfg: Config, w: World, e: Event, name: string, p: Identity)
    requires WellFormed(cfg) && Inv(cfg, w) && Legit(cfg, w, e) && !Meddles(e, name) && Owns(w.store, p, name)
    ensures Owns(Apply(cfg, w, e).store, p, name)
  {
    var r :| r in w.store.nodeImages[name].owners && Match(r, p);
    ReferenceSurvivesStep(cfg, w, e, name, r);
    var owners := Apply(cfg, w, e).store.nodeImages[name].owners;
    if r !in owners {
      assert Match(Generate(w.tasks[e.release].release.identity), p);
    }
  }

  /** An owner stays an owner through every run without meddling: any number of other releases may read, create,
      update, fail and retry meanwhile. */
  lemma {:induction false} OwnersSurviveRuns(cfg: Config, w: World, es: seq<Event>, name: string, p: Identity)
    requires WellFormed(cfg) && Inv(cfg, w) && Possible(cfg, w, es)
    requires Owns(w.store, p, name) && forall i :: 0 <= i < |es| ==> !Meddles(es[i], name)
    ensures Owns(Execute(cfg, w, es).store, p, name)
    decreases |es|
  {
    if es != [] {
      OwnerSurvivesStep(cfg, w, es[0], name, p);
      StepKeepsInv(cfg, w, es[0]);
      OwnersSurviveRuns(cfg, Apply(cfg, w, es[0]), es[1..], name, p);
    }
  }

  /** An accepted write makes the writer an owner, and it stays one. */
  lemma WinnersOwnForGood(cfg: Config, w: World, name: string, kept: bool, es: seq<Event>)
    requires WellFormed(cfg) && Reachable(cfg, w) && LegitStack(cfg, w, name, Write(Accepted, kept))
    requires Possible(cfg, ApplyStack(cfg, w, name, Write(Accepted, kept)), es)
    requires var target := w.tasks[name].items[w.tasks[name].done].name;
             forall i :: 0 <= i < |es| ==> !Meddles(es[i], target)
    ensures var target := w.tasks[name].items[w.tasks[name].done].name;
            Owns(Execute(cfg, ApplyStack(cfg, w, name, Write(Accepted, kept)), es).store, w.tasks[name].release.identity, target)
  {
    ReachableMeetsInv(cfg, w);
    var t := w.tasks[name];
    WriteAdopts(w, name);
    StepKeepsInv(cfg, w, Stack(name, Write(Accepted, kept)));
    OwnersSurviveRuns(cfg, ApplyStack(cfg, w, name, Write(Accepted, kept)), es, t.items[t.done].name, t.release.identity);
  }

  /** A write that the API server does not take changes no object and no other task; it ends its own task. */
  lemma LosersChangeNothing(cfg: Config, w: World, name: string, answer: WriteAnswer, kept: bool)
    requires LegitStack(cfg, w, name, Write(answer, kept)) && !WriteAccepted(w, w.tasks[name])
    ensures answer == Rejected(false)
    ensures var w' := ApplyStack(cfg, w, name, Write(answer, kept));
            && w'.store.nodeImages == w.store.nodeImages && w'.store.revision == w.store.revision
            && w'.tasks == w.tasks - {name} && w'.log == w.log && w'.images == w.images
  {
  }

  /** A Create is taken only for a free name, an Update only if the object is still what was read. */
  lemma AcceptedMeansUndisturbed(cfg: Config, w: World, name: string)
    requires WellFormed(cfg) && Reachable(cfg, w) && name in w.tasks && w.tasks[name].done < |w.tasks[name].items|
    ensures var t := w.tasks[name];
            var target := t.items[t.done].name;
            WriteAccepted(w, t) <==>
              || (t.read == Absent && target !in w.store.nodeImages)
              || (t.read.Seen? && target in w.store.nodeImages && w.store.nodeImages[target] == t.read.copy)
  {
    ReachableMeetsInv(cfg, w);
  }

  /** What somebody else leaves of an object. */
  function Left(e: Event, x: string): Option<seq<OwnerRef>> {
    match e
    case Outside(AddNode(n, owners, _)) => if n == x then Some(owners) else None
    case Outside(EditOwners(n, owners)) => if n == x then Some(owners) else None
    case Outside(DropNode(n)) => if n == x then Some([]) else None
    case _ => None
  }

  /** The event is the accepted write of the task for the object. */
  predicate Takes(w: World, e: Event, name: string, x: string) {
    && e.Stack? && e.release == name && e.step.Write? && e.step.answer == Accepted && name in w.tasks
    && w.tasks[name].done < |w.tasks[name].items| && w.tasks[name].items[w.tasks[name].done].name == x
  }

  lemma OutsideLost(cfg: Config, w: World, s: OutsideStep, name: string, x: string)
    requires LegitOutside(cfg, w, s) && name in w.tasks
    ensures var w' := ApplyOutside(cfg, w, s);
            && name in w'.tasks
            && (x in w'.tasks[name].lost <==>
                  match Left(Outside(s), x)
                  case Some(owners) => !OwnedBy(owners, w.tasks[name].release.identity)
                  case None => x in w.tasks[name].lost)
  {
  }

  lemma StackLost(cfg: Config, w: World, n: string, s: StackStep, name: string, x: string)
    requires LegitStack(cfg, w, n, s) && name in w.tasks && name in ApplyStack(cfg, w, n, s).tasks
    ensures x in ApplyStack(cfg, w, n, s).tasks[name].lost <==>
              x in w.tasks[name].lost && !Takes(w, Stack(n, s), name, x)
  {
  }

  /** What a task counts as lost: that which somebody else last left without the release among the owners, and which
      the task did not take again since. */
  lemma LostExactly(cfg: Config, w: World, e: Event, name: string, x: string)
    requires Legit(cfg, w, e) && name in w.tasks && name in Apply(cfg, w, e).tasks
    ensures x in Apply(cfg, w, e).tasks[name].lost <==>
              match Left(e, x)
              case Some(owners) => !OwnedBy(owners, w.tasks[name].release.identity)
              case None => x in w.tasks[name].lost && !Takes(w, e, name, x)
  {
    match e {
      case Outside(s) => OutsideLost(cfg, w, s, name, x);
      case NodeVisit(_) =>
      case Stack(n, s) => StackLost(cfg, w, n, s, name, x);
    }
  }

  /** A reconciliation that gets through its loop owns exactly those objects of its release that are not lost. */
  lemma FinishersOwn(cfg: Config, w: World, name: string)
    requires WellFormed(cfg) && Reachable(cfg, w) && name in w.tasks && w.tasks[name].done == |w.tasks[name].items|
    ensures var t := w.tasks[name];
            forall i :: 0 <= i < |t.items| ==>
              (Owns(w.store, t.release.identity, t.items[i].name) <==> t.items[i].name !in t.lost)
  {
    ReachableMeetsInv(cfg, w);
  }
}
