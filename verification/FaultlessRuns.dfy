/** Runs in which no call fails. Reconciliations still interleave call by call, and an Update still loses against
    whatever was written since its Get. */
module FaultlessRuns {
  import opened Glance
  import opened StackReconciler
  import opened Protocol
  import opened Invariants
  import opened Convergence
  import N = NodeImageReconciler

  /** A visit that gets all its answers, and whose patch is stored. */
  ghost predicate Answered(w: World, v: Visit) {
    && v.answers.cloud == N.CloudFound && v.answers.authenticated && v.answers.service && v.answers.listing.Listed?
    && (if |v.answers.listing.ids| == 0 then v.answers.creation.Created? && v.answers.importAccepted
        else v.answers.fetch.Fetched?)
    && v.kept && !v.unanswered && Forward(w.images, v.between)
  }

  /** Patches of a release are stored unless it is not the one that was read. */
  ghost predicate PatchIsTried(w: World, n: string, kept: bool)
    requires n in w.tasks
  {
    n in w.store.releases && w.store.releases[n] == w.tasks[n].release ==> kept
  }

  ghost predicate FaultlessCall(cfg: Config, w: World, n: string, s: StackStep)
    requires LegitStack(cfg, w, n, s)
  {
    match s
    case Early(exit, kept) => kept && (exit == Downloaded || exit == BadTag)
    case Begin | Read => true
    case Write(answer, kept) =>
      if WriteAccepted(w, w.tasks[n]) then answer == Accepted else answer == Rejected(false) && PatchIsTried(w, n, kept)
    case Stop(_) => false
    case Finish(kept) => PatchIsTried(w, n, kept)
  }

  ghost predicate Faultless(cfg: Config, w: World, e: Event) {
    && Legit(cfg, w, e)
    && match e
       case Outside(Tick(_)) => true
       case Outside(Drift(images)) => Forward(w.images, images)
       case Outside(_) => false
       case NodeVisit(v) => Answered(w, v)
       case Stack(n, s) => FaultlessCall(cfg, w, n, s)
  }

  ghost predicate FaultlessRun(cfg: Config, w: World, es: seq<Event>)
    decreases |es|
  {
    es == [] || (Faultless(cfg, w, es[0]) && FaultlessRun(cfg, Apply(cfg, w, es[0]), es[1..]))
  }

  // ---------- what faultless events keep ----------

  /** The image is active or will be: its import was accepted and nothing went wrong. */
  predicate Live(img: Image) {
    img.status == Active || (img.fed && Underway(img.status))
  }

  /** A sound state in which every image is active or on its way. Any reconciliations may be in flight. */
  ghost predicate Good(cfg: Config, w: World) {
    Sound(cfg, w) && forall id :: id in w.images ==> Live(w.images[id])
  }

  lemma ForwardKeepsLive(before: Images, after: Images)
    requires Forward(before, after) && forall id :: id in before ==> Live(before[id])
    ensures forall id :: id in after ==> Live(after[id])
  {
  }

  lemma AnsweredKeepsLive(cfg: Config, w: World, v: Visit)
    requires LegitVisit(w, v) && Answered(w, v) && forall id :: id in w.images ==> Live(w.images[id])
    ensures var w' := ApplyVisit(cfg, w, v); forall id :: id in w'.images ==> Live(w'.images[id])
  {
    ForwardKeepsLive(w.images, v.between);
  }

  lemma FaultlessKeepsGood(cfg: Config, w: World, e: Event)
    requires Good(cfg, w) && Faultless(cfg, w, e)
    ensures Benign(w, e) && Good(cfg, Apply(cfg, w, e))
  {
    StepKeepsInv(cfg, w, e);
    match e {
      case Outside(s) =>
        if s.Drift? {
          ForwardKeepsLive(w.images, s.images);
        }
      case NodeVisit(v) => AnsweredKeepsLive(cfg, w, v);
      case Stack(n, s) => StackKeepsTheRest(cfg, w, n, s);
    }
  }

  lemma StackKeepsTheRest(cfg: Config, w: World, n: string, s: StackStep)
    requires LegitStack(cfg, w, n, s)
    ensures var w' := ApplyStack(cfg, w, n, s);
            w'.images == w.images && w'.now == w.now && w'.store.releases.Keys == w.store.releases.Keys
  {
  }

  /** The reconciliation in flight, if any, is of the release as it is stored. */
  ghost predicate Current(w: World, k: string) {
    k in w.tasks ==> k in w.store.releases && w.store.releases[k] == w.tasks[k].release
  }

  lemma CallKeepsCurrent(cfg: Config, w: World, n: string, s: StackStep, k: string)
    requires LegitStack(cfg, w, n, s) && Current(w, k)
    ensures Current(ApplyStack(cfg, w, n, s), k)
  {
    if s.Write? && s.answer == Accepted {
      assert Written(w, n).store.releases == w.store.releases;
    }
  }

  lemma FaultlessKeepsCurrent(cfg: Config, w: World, e: Event, k: string)
    requires Faultless(cfg, w, e) && Current(w, k)
    ensures Current(Apply(cfg, w, e), k)
  {
    match e {
      case Outside(_) =>
      case NodeVisit(v) =>
      case Stack(n, s) => CallKeepsCurrent(cfg, w, n, s, k);
    }
  }

  // ---------- runs ----------

  lemma {:induction false} FaultlessIsPossible(cfg: Config, w: World, es: seq<Event>)
    requires FaultlessRun(cfg, w, es)
    ensures Possible(cfg, w, es)
    decreases |es|
  {
    if es != [] {
      FaultlessIsPossible(cfg, Apply(cfg, w, es[0]), es[1..]);
    }
  }

  lemma {:induction false} FaultlessConcat(cfg: Config, w: World, es: seq<Event>, fs: seq<Event>)
    requires FaultlessRun(cfg, w, es) && Possible(cfg, w, es) && FaultlessRun(cfg, Execute(cfg, w, es), fs)
    ensures FaultlessRun(cfg, w, es + fs) && Possible(cfg, w, es + fs)
    ensures Possible(cfg, Execute(cfg, w, es), fs)
    ensures Execute(cfg, w, es + fs) == Execute(cfg, Execute(cfg, w, es), fs)
    decreases |es|
  {
    if es == [] {
      assert es + fs == fs;
      FaultlessIsPossible(cfg, w, fs);
    } else {
      assert (es + fs)[1..] == es[1..] + fs;
      FaultlessConcat(cfg, Apply(cfg, w, es[0]), es[1..], fs);
    }
  }
}
