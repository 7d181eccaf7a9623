/** What every step of the protocol keeps. */
module Invariants {
  import opened Wrappers
  import opened Owners
  import opened Glance
  import opened Cluster
  import opened StackReconciler
  import opened Protocol

  // ---------- resource versions ----------

  /** No version is ahead of the revision, and a copy that still has the current version is current. */
  ghost predicate Versioned(w: World) {
    && (forall n :: n in w.store.nodeImages ==> w.store.nodeImages[n].version <= w.store.revision)
    && forall k :: k in w.tasks && w.tasks[k].read.Seen? ==>
         && w.tasks[k].done < |w.tasks[k].items|
         && w.tasks[k].read.copy.version <= w.store.revision
         && var n := w.tasks[k].items[w.tasks[k].done].name;
            (n in w.store.nodeImages && w.store.nodeImages[n].version == w.tasks[k].read.copy.version
             ==> w.store.nodeImages[n] == w.tasks[k].read.copy)
  }

  ghost predicate TasksInRange(w: World) {
    forall k :: k in w.tasks ==>
      && w.tasks[k].done <= |w.tasks[k].items|
      && (w.tasks[k].read != Unread ==> w.tasks[k].done < |w.tasks[k].items|)
      && Parseable(w.tasks[k].release.identity.apiVersion)
  }

  /** A task works through the items of the release it read. */
  ghost predicate TasksComplete(cfg: Config, w: World) {
    forall k :: k in w.tasks ==> k in cfg.catalog && Items(w.tasks[k].release, cfg.catalog[k]) == Ok(w.tasks[k].items)
  }

  // ---------- images ----------

  ghost predicate SpecsKnown(cfg: Config, w: World) {
    && (forall n :: n in w.store.nodeImages ==> w.store.nodeImages[n].spec.opts in cfg.specs)
    && forall k, i :: k in w.tasks && 0 <= i < |w.tasks[k].items| ==> w.tasks[k].items[i].spec.opts in cfg.specs
  }

  /** No two images made from the same listed options exist at a time. */
  ghost predicate NoTwins(images: Images) {
    forall i, j :: i in images && j in images && images[i].origin == images[j].origin && !images[i].origin.hidden ==> i == j
  }

  ghost predicate InOrder(images: Images, specs: set<CreateOpts>, serial: nat) {
    && MadeFrom(images, specs, serial)
    && NoTwins(images)
    && (Compatible(specs) ==> Unambiguous(images, specs))
  }

  ghost predicate ImagesInOrder(cfg: Config, w: World) {
    InOrder(w.images, cfg.specs, w.serial)
  }

  lemma DriftKeepsImages(before: Images, after: Images, specs: set<CreateOpts>, serial: nat)
    requires InOrder(before, specs, serial) && Drifts(before, after)
    ensures InOrder(after, specs, serial) && InOrder(after, specs, serial + 1)
    ensures forall opts :: Lookup(after, opts) <= Lookup(before, opts)
  {
    if Compatible(specs) {
      DriftKeepsUnambiguous(before, after, specs, serial);
    }
  }

  lemma CreateKeepsImages(images: Images, specs: set<CreateOpts>, serial: nat, opts: CreateOpts, img: Image)
    requires InOrder(images, specs, serial) && opts in specs && opts.name != "" && Lookup(images, opts) == {}
    requires img.origin == opts && IdFor(opts, serial) !in images
    ensures InOrder(images[IdFor(opts, serial) := img], specs, serial + 1)
  {
    var made := IdFor(opts, serial);
    forall i | i in images && images[i].origin == opts && !opts.hidden
      ensures false
    {
      FindsIsSatisfies(images, specs, serial, opts, i);
    }
    if Compatible(specs) {
      CreateKeepsUnambiguous(images, specs, serial, opts, img);
    }
  }

  // ---------- flags ----------

  /** The visit that made an object ready and was not undone since: none if the object is not ready. */
  function ReadyWitness(log: seq<Entry>, name: string): Option<Entry> {
    if log == [] then None
    else
      var before, last := ReadyWitness(log[..|log| - 1], name), log[|log| - 1];
      if last.name != name then before
      else match last
        case Visited(_, e, _, _) => if e.SawActive? then Some(last) else if N.Refusing(e) then None else before
        case Born(_) => None
        case Gone(_) => None
  }

  /** A visit that saw an active image saw one that its lookup finds. */
  predicate Honest(x: Entry) {
    x.Visited? && x.exit.SawActive? ==>
      x.exit.id in x.seen && x.seen[x.exit.id].status == Active && Finds(x.opts, x.exit.id, x.seen[x.exit.id])
  }

  /** The last patched visit since the object's creation that reached the image service. */
  function LastImageExit(log: seq<Entry>, name: string): Option<N.Exit> {
    if log == [] then None
    else
      var before, last := LastImageExit(log[..|log| - 1], name), log[|log| - 1];
      if last.name != name then before
      else match last
        case Visited(_, e, _, _) => if N.Early(e) then before else Some(e)
        case Born(_) => None
        case Gone(_) => None
  }

  /** An object's flag and its condition are what its history makes them. */
  ghost predicate FlagAgrees(o: NodeImageRelease, log: seq<Entry>, name: string) {
    var st, cause, last := o.status, ReadyWitness(log, name), LastImageExit(log, name);
    && (st.ready <==> cause.Some?)
    && (st.ready ==> cause.value.Visited? && cause.value.opts == o.spec.opts && Honest(cause.value))
    && (st.imageReady.IsTrue() <==> last.Some? && last.value.SawActive?)
    && (st.imageReady.IsTrue() ==> st.ready)
    && (st.ready && !st.imageReady.IsTrue() ==>
          last.Some? && (last.value.ListError? || last.value.TooManyFound? || last.value.GetError? || last.value.TimedOut?))
  }

  ghost predicate FlagsFollowLog(w: World) {
    forall n :: n in w.store.nodeImages ==> FlagAgrees(w.store.nodeImages[n], w.log, n)
  }

  ghost predicate StackFlagAgrees(st: StackStatus) {
    st.ready <==> st.nodeImagesReady.IsTrue()
  }

  ghost predicate StackFlagsAgree(w: World) {
    && (forall n :: n in w.store.releases ==> StackFlagAgrees(w.store.releases[n].status)
                                              && w.store.releases[n].identity.name == n
                                              && Parseable(w.store.releases[n].identity.apiVersion))
    && forall k :: k in w.tasks ==> StackFlagAgrees(w.tasks[k].release.status) && w.tasks[k].release.identity.name == k
  }

  // ---------- ownership ----------

  /** Of what it has done, a task owns just what is not lost. */
  ghost predicate Exact(s: Store, t: Task) {
    forall j :: 0 <= j < t.done <= |t.items| ==>
      (Owns(s, t.release.identity, t.items[j].name) <==> t.items[j].name !in t.lost)
  }

  ghost predicate DoneIsOwned(w: World) {
    forall k :: k in w.tasks ==> Exact(w.store, w.tasks[k])
  }

  // ---------- one step ----------

  ghost predicate Inv(cfg: Config, w: World) {
    && TasksInRange(w) && Versioned(w) && TasksComplete(cfg, w) && SpecsKnown(cfg, w) && ImagesInOrder(cfg, w)
    && FlagsFollowLog(w) && StackFlagsAgree(w) && DoneIsOwned(w)
    && w.imported <= w.created
  }

  // ---------- writes of one object ----------

  /** At most one object was written, and it got the new revision. */
  ghost predicate PutAt(s: Store, t: Store, n: string) {
    t == s || (&& n in t.nodeImages && t.revision == s.revision + 1 && t.nodeImages[n].version == t.revision
               && t.nodeImages == s.nodeImages[n := t.nodeImages[n]])
  }

  /** A write by which nobody stops being an owner of the object and the new owner becomes one. */
  ghost predicate Adopts(s: Store, t: Store, n: string, owner: Identity) {
    && PutAt(s, t, n) && t.releases == s.releases
    && Owns(t, owner, n)
    && (forall p :: Owns(s, p, n) ==> Owns(t, p, n))
    && (n in s.nodeImages ==>
          && t.nodeImages[n].owners == EnsureOwnerRef(s.nodeImages[n].owners, Generate(owner))
          && t.nodeImages[n].spec == s.nodeImages[n].spec
          && t.nodeImages[n].status == s.nodeImages[n].status)
    && (n !in s.nodeImages ==> t.nodeImages[n].status == FRESH && t.nodeImages[n].owners == [Generate(owner)])
  }

  lemma RewriteAdopts(s: Store, n: string, owner: Identity)
    requires n in s.nodeImages && Parseable(owner.apiVersion)
    ensures var o := s.nodeImages[n];
            Adopts(s, WriteNodeImage(s, n, EnsureOwnerRef(o.owners, Generate(owner)), o.spec), n, owner)
  {
    var o := s.nodeImages[n];
    var t := WriteNodeImage(s, n, EnsureOwnerRef(o.owners, Generate(owner)), o.spec);
    forall p
      ensures OwnedBy(t.nodeImages[n].owners, owner)
      ensures Owns(s, p, n) ==> Owns(t, p, n)
    {
      EnsureMakesOwner(o.owners, owner, p);
    }
  }

  lemma AddAdopts(s: Store, n: string, owner: Identity, spec: Spec)
    requires n !in s.nodeImages && Parseable(owner.apiVersion)
    ensures Adopts(s, AddNodeImage(s, n, [Generate(owner)], spec), n, owner)
  {
    EnsureMakesOwner([], owner, owner);
  }

  /** An accepted write of a task adopts the object in hand. */
  lemma WriteAdopts(w: World, name: string)
    requires name in w.tasks && TasksInRange(w) && Versioned(w)
    requires w.tasks[name].done < |w.tasks[name].items| && WriteAccepted(w, w.tasks[name])
    ensures var t := w.tasks[name];
            Adopts(w.store, WriteOf(w.store, t), t.items[t.done].name, t.release.identity)
    ensures w.tasks[name].read.Absent? <==> w.tasks[name].items[w.tasks[name].done].name !in w.store.nodeImages
  {
    var t := w.tasks[name];
    var it := t.items[t.done];
    if t.read.Seen? {
      RewriteAdopts(w.store, it.name, t.release.identity);
    } else {
      AddAdopts(w.store, it.name, t.release.identity, it.spec);
    }
  }

  lemma PutKeepsVersions(w: World, s: Store, n: string)
    requires Versioned(w) && PutAt(w.store, s, n)
    ensures Versioned(w.(store := s))
  {
  }

  /** Who owns an object after its adoption and did not before has the name of the new owner. */
  lemma AdoptionGains(s: Store, t: Store, n: string, owner: Identity, p: Identity, k: string)
    requires Adopts(s, t, n, owner) && Owns(t, p, k) && !Owns(s, p, k)
    ensures k == n && p.name == owner.name
  {
    if k == n && n in s.nodeImages && p.name != owner.name {
      OtherOwner(s.nodeImages[n].owners, owner, p);
    }
  }

  lemma OthersStayExact(s: Store, t: Store, n: string, owner: Identity, task: Task)
    requires Adopts(s, t, n, owner) && Exact(s, task) && task.release.identity.name != owner.name
    ensures Exact(t, task)
  {
    var p := task.release.identity;
    forall j | 0 <= j < task.done <= |task.items|
      ensures Owns(t, p, task.items[j].name) <==> Owns(s, p, task.items[j].name)
    {
      if Owns(t, p, task.items[j].name) && !Owns(s, p, task.items[j].name) {
        AdoptionGains(s, t, n, owner, p, task.items[j].name);
      }
    }
  }

  lemma WriterStaysExact(s: Store, t: Store, task: Task)
    requires task.done < |task.items| && Exact(s, task)
    requires Adopts(s, t, task.items[task.done].name, task.release.identity)
    ensures Exact(t, DoneOne(task))
  {
    var n, p := task.items[task.done].name, task.release.identity;
    forall k | k != n
      ensures Owns(t, p, k) <==> Owns(s, p, k)
    {
    }
  }

  lemma DisturbedStaysExact(s: Store, t: Store, n: string, owners: seq<OwnerRef>, task: Task)
    requires Exact(s, task) && t.nodeImages - {n} == s.nodeImages - {n}
    requires if n in t.nodeImages then t.nodeImages[n].owners == owners else owners == []
    ensures Exact(t, DisturbedTask(task, n, owners))
  {
    var p := task.release.identity;
    forall k | k != n
      ensures Owns(t, p, k) <==> Owns(s, p, k)
    {
      assert k in t.nodeImages - {n} <==> k in s.nodeImages - {n};
      assert k in t.nodeImages ==> (t.nodeImages - {n})[k] == t.nodeImages[k] == s.nodeImages[k];
    }
  }

  lemma AdoptionKeepsFlags(w: World, s: Store, n: string, owner: Identity, born: seq<Entry>)
    requires FlagsFollowLog(w) && Adopts(w.store, s, n, owner)
    requires born == if n in w.store.nodeImages then [] else [Born(n)]
    ensures FlagsFollowLog(w.(store := s, log := w.log + born))
  {
    if born == [] {
      assert w.log + born == w.log;
    } else {
      forall k | k in s.nodeImages
        ensures FlagAgrees(s.nodeImages[k], w.log + [Born(n)], k)
      {
        if k == n {
          BornAgrees(s.nodeImages[n], w.log, n);
        } else {
          OthersAgree(w.store.nodeImages[k], s.nodeImages[k], w.log, Born(n), k);
        }
      }
    }
  }

  lemma StatusAfterAgrees(st: StackStatus, e: Exit, now: nat)
    requires StackFlagAgrees(st)
    ensures StackFlagAgrees(StatusAfter(st, e, now))
  {
  }

  lemma LogGrows(log: seq<Entry>, x: Entry)
    ensures (log + [x])[..|log|] == log
    ensures forall n :: n != x.name ==>
              ReadyWitness(log + [x], n) == ReadyWitness(log, n) && LastImageExit(log + [x], n) == LastImageExit(log, n)
  {
  }

  lemma VisitAgrees(o: NodeImageRelease, log: seq<Entry>, x: Entry, now: nat, version: nat)
    requires FlagAgrees(o, log, x.name)
    requires x.Visited? && x.opts == o.spec.opts && Honest(x)
    ensures FlagAgrees(o.(status := N.After(o.status, x.exit, now), version := version), log + [x], x.name)
  {
    LogGrows(log, x);
  }

  lemma OthersAgree(o: NodeImageRelease, p: NodeImageRelease, log: seq<Entry>, x: Entry, name: string)
    requires FlagAgrees(o, log, name) && x.name != name && p.spec == o.spec && p.status == o.status
    ensures FlagAgrees(p, log + [x], name)
  {
    LogGrows(log, x);
  }

  lemma BornAgrees(p: NodeImageRelease, log: seq<Entry>, name: string)
    requires p.status == FRESH
    ensures FlagAgrees(p, log + [Born(name)], name)
  {
    LogGrows(log, Born(name));
  }

  // ---------- one step ----------

  /** Only the history of losses differs. */
  ghost predicate SameButLost(before: map<string, Task>, after: map<string, Task>) {
    && after.Keys == before.Keys
    && forall k :: k in before ==> after[k] == before[k].(lost := after[k].lost)
  }

  lemma LossesKeepVersions(w: World, w': World)
    requires TasksInRange(w) && Versioned(w) && w' == w.(tasks := w'.tasks) && SameButLost(w.tasks, w'.tasks)
    ensures TasksInRange(w') && Versioned(w')
  {
  }

  lemma EditKeepsVersions(cfg: Config, w: World, n: string, owners: seq<OwnerRef>)
    requires TasksInRange(w) && Versioned(w) && n in w.store.nodeImages
    ensures var w' := ApplyOutside(cfg, w, EditOwners(n, owners)); TasksInRange(w') && Versioned(w')
  {
    var s := WriteNodeImage(w.store, n, owners, w.store.nodeImages[n].spec);
    PutKeepsVersions(w, s, n);
    LossesKeepVersions(w.(store := s), ApplyOutside(cfg, w, EditOwners(n, owners)));
  }

  lemma DropKeepsVersions(cfg: Config, w: World, n: string)
    requires TasksInRange(w) && Versioned(w) && n in w.store.nodeImages
    ensures var w' := ApplyOutside(cfg, w, DropNode(n)); TasksInRange(w') && Versioned(w')
  {
    var w' := ApplyOutside(cfg, w, DropNode(n));
    var w1 := w.(store := w'.store, log := w'.log);
    assert Versioned(w1);
    LossesKeepVersions(w1, w');
  }

  lemma OutsideKeepsVersions(cfg: Config, w: World, s: OutsideStep)
    requires TasksInRange(w) && Versioned(w) && LegitOutside(cfg, w, s)
    ensures var w' := ApplyOutside(cfg, w, s); TasksInRange(w') && Versioned(w')
  {
    match s {
      case EditOwners(n, owners) => EditKeepsVersions(cfg, w, n, owners);
      case DropNode(n) => DropKeepsVersions(cfg, w, n);
      case _ =>
    }
  }

  lemma VisitKeepsVersions(cfg: Config, w: World, v: Visit)
    requires TasksInRange(w) && Versioned(w) && LegitVisit(w, v)
    ensures var w' := ApplyVisit(cfg, w, v); TasksInRange(w') && Versioned(w')
  {
  }

  lemma StackKeepsRange(cfg: Config, w: World, name: string, s: StackStep)
    requires TasksInRange(w) && StackFlagsAgree(w) && LegitStack(cfg, w, name, s)
    ensures TasksInRange(ApplyStack(cfg, w, name, s))
  {
  }

  lemma StackKeepsVersions(cfg: Config, w: World, name: string, s: StackStep)
    requires TasksInRange(w) && Versioned(w) && LegitStack(cfg, w, name, s)
    ensures Versioned(ApplyStack(cfg, w, name, s))
  {
    var w' := ApplyStack(cfg, w, name, s);
    if s.Write? && s.answer != Rejected(false) {
      var t := w.tasks[name];
      WriteAdopts(w, name);
      PutKeepsVersions(w, WriteOf(w.store, t), t.items[t.done].name);
    } else {
      assert w'.store.nodeImages == w.store.nodeImages && w'.store.revision == w.store.revision;
    }
  }

  lemma StackKeepsItems(cfg: Config, w: World, name: string, s: StackStep)
    requires TasksComplete(cfg, w) && LegitStack(cfg, w, name, s)
    ensures TasksComplete(cfg, ApplyStack(cfg, w, name, s))
  {
  }

  lemma OutsideKeepsSpecs(cfg: Config, w: World, s: OutsideStep)
    requires WellFormed(cfg) && SpecsKnown(cfg, w) && TasksInRange(w) && Versioned(w) && LegitOutside(cfg, w, s)
    ensures var w' := ApplyOutside(cfg, w, s); SpecsKnown(cfg, w')
  {
  }

  lemma VisitKeepsSpecs(cfg: Config, w: World, v: Visit)
    requires WellFormed(cfg) && SpecsKnown(cfg, w) && TasksInRange(w) && Versioned(w) && LegitVisit(w, v)
    ensures var w' := ApplyVisit(cfg, w, v); SpecsKnown(cfg, w')
  {
  }

  lemma WriteKeepsSpecs(cfg: Config, w: World, name: string)
    requires SpecsKnown(cfg, w) && Versioned(w) && name in w.tasks
    requires w.tasks[name].done < |w.tasks[name].items| && WriteAccepted(w, w.tasks[name])
    ensures var s := WriteOf(w.store, w.tasks[name]);
            forall n :: n in s.nodeImages ==> s.nodeImages[n].spec.opts in cfg.specs
  {
  }

  lemma StackKeepsSpecs(cfg: Config, w: World, name: string, s: StackStep)
    requires WellFormed(cfg) && SpecsKnown(cfg, w) && TasksInRange(w) && Versioned(w) && LegitStack(cfg, w, name, s)
    ensures var w' := ApplyStack(cfg, w, name, s); SpecsKnown(cfg, w')
  {
    if s.Write? && (s.answer == Accepted || s.answer == Rejected(true)) {
      WriteKeepsSpecs(cfg, w, name);
    }
  }

  lemma OutsideKeepsStackFlags(cfg: Config, w: World, s: OutsideStep)
    requires StackFlagsAgree(w) && LegitOutside(cfg, w, s)
    ensures var w' := ApplyOutside(cfg, w, s); StackFlagsAgree(w')
  {
  }

  lemma VisitKeepsStackFlags(cfg: Config, w: World, v: Visit)
    requires StackFlagsAgree(w) && LegitVisit(w, v)
    ensures var w' := ApplyVisit(cfg, w, v); StackFlagsAgree(w')
  {
  }

  lemma PatchKeepsStackFlags(w: World, name: string, e: Exit, kept: bool)
    requires StackFlagsAgree(w) && name in w.tasks
    ensures StackFlagsAgree(w.(store := Patched(w, name, e, kept), tasks := w.tasks - {name}))
  {
    StatusAfterAgrees(w.tasks[name].release.status, e, w.now);
  }

  lemma WriteKeepsStackFlags(w: World, name: string)
    requires StackFlagsAgree(w) && name in w.tasks && w.tasks[name].done < |w.tasks[name].items|
    ensures StackFlagsAgree(Written(w, name))
  {
  }

  lemma StackKeepsStackFlags(cfg: Config, w: World, name: string, s: StackStep)
    requires StackFlagsAgree(w) && LegitStack(cfg, w, name, s)
    ensures var w' := ApplyStack(cfg, w, name, s); StackFlagsAgree(w')
  {
    match s {
      case Early(e, _) => StatusAfterAgrees(w.store.releases[name].status, e, w.now);
      case Write(_, kept) =>
        WriteKeepsStackFlags(w, name);
        PatchKeepsStackFlags(w, name, WriteFailed, kept);
        PatchKeepsStackFlags(Written(w, name), name, WriteFailed, kept);
      case Stop(kept) => PatchKeepsStackFlags(w, name, ListFailed, kept);
      case Finish(kept) => PatchKeepsStackFlags(w, name, Judgement(w, name), kept);
      case _ =>
    }
  }

  lemma OutsideKeepsImports(cfg: Config, w: World, s: OutsideStep)
    requires w.imported <= w.created && LegitOutside(cfg, w, s)
    ensures var w' := ApplyOutside(cfg, w, s); w'.imported <= w'.created
  {
  }

  lemma VisitKeepsImports(cfg: Config, w: World, v: Visit)
    requires w.imported <= w.created && LegitVisit(w, v)
    ensures var w' := ApplyVisit(cfg, w, v); w'.imported <= w'.created
  {
  }

  lemma StackKeepsImports(cfg: Config, w: World, name: string, s: StackStep)
    requires w.imported <= w.created && LegitStack(cfg, w, name, s)
    ensures var w' := ApplyStack(cfg, w, name, s); w'.imported <= w'.created
  {
  }

  lemma OutsideKeepsFlags(cfg: Config, w: World, s: OutsideStep)
    requires FlagsFollowLog(w) && LegitOutside(cfg, w, s)
    ensures var w' := ApplyOutside(cfg, w, s); FlagsFollowLog(w')
  {
  }

  lemma VisitsAreHonest(cfg: Config, w: World, v: Visit)
    requires LegitVisit(w, v)
    ensures Honest(Visited(v.name, VisitExit(cfg, w, v), w.store.nodeImages[v.name].spec.opts, v.between))
  {
    if VisitExit(cfg, w, v).SawActive? {
      assert v.answers.listing.ids[0] in Lookup(w.images, w.store.nodeImages[v.name].spec.opts);
    }
  }

  /** A patch after an honest visit. */
  lemma PatchKeepsFlags(w: World, s: Store, x: Entry)
    requires FlagsFollowLog(w) && x.Visited? && x.name in w.store.nodeImages && Honest(x)
    requires x.opts == w.store.nodeImages[x.name].spec.opts
    requires s == PatchNodeImage(w.store, x.name, N.After(w.store.nodeImages[x.name].status, x.exit, w.now))
    ensures FlagsFollowLog(w.(store := s, log := w.log + [x]))
  {
    forall k | k in s.nodeImages
      ensures FlagAgrees(s.nodeImages[k], w.log + [x], k)
    {
      if k == x.name {
        VisitAgrees(w.store.nodeImages[k], w.log, x, w.now, s.nodeImages[k].version);
      } else {
        OthersAgree(w.store.nodeImages[k], s.nodeImages[k], w.log, x, k);
      }
    }
  }

  lemma VisitKeepsFlags(cfg: Config, w: World, v: Visit)
    requires FlagsFollowLog(w) && LegitVisit(w, v)
    ensures var w' := ApplyVisit(cfg, w, v); FlagsFollowLog(w')
  {
    if v.kept {
      var w', o := ApplyVisit(cfg, w, v), w.store.nodeImages[v.name];
      VisitsAreHonest(cfg, w, v);
      PatchKeepsFlags(w, w'.store, Visited(v.name, VisitExit(cfg, w, v), o.spec.opts, v.between));
    }
  }

  lemma StackKeepsFlags(cfg: Config, w: World, name: string, s: StackStep)
    requires TasksInRange(w) && Versioned(w) && FlagsFollowLog(w) && LegitStack(cfg, w, name, s)
    ensures var w' := ApplyStack(cfg, w, name, s); FlagsFollowLog(w')
  {
    if s.Write? && s.answer != Rejected(false) {
      var t := w.tasks[name];
      WriteAdopts(w, name);
      AdoptionKeepsFlags(w, WriteOf(w.store, t), t.items[t.done].name, t.release.identity, BornOf(t));
    }
  }

  lemma DisturbanceKeepsOwnership(w: World, w': World, n: string, owners: seq<OwnerRef>)
    requires DoneIsOwned(w) && w'.tasks == Disturbed(w.tasks, n, owners)
    requires w'.store.nodeImages - {n} == w.store.nodeImages - {n}
    requires if n in w'.store.nodeImages then w'.store.nodeImages[n].owners == owners else owners == []
    ensures DoneIsOwned(w')
  {
    forall k | k in w'.tasks
      ensures Exact(w'.store, w'.tasks[k])
    {
      DisturbedStaysExact(w.store, w'.store, n, owners, w.tasks[k]);
    }
  }

  lemma OutsideKeepsOwnership(cfg: Config, w: World, s: OutsideStep)
    requires DoneIsOwned(w) && LegitOutside(cfg, w, s)
    ensures var w' := ApplyOutside(cfg, w, s); DoneIsOwned(w')
  {
    var w' := ApplyOutside(cfg, w, s);
    match s {
      case AddNode(n, owners, _) =>
        assert w'.store.nodeImages - {n} == w.store.nodeImages - {n};
        DisturbanceKeepsOwnership(w, w', n, owners);
      case DropNode(n) =>
        assert w'.store.nodeImages - {n} == w.store.nodeImages - {n};
        DisturbanceKeepsOwnership(w, w', n, []);
      case EditOwners(n, owners) =>
        assert w'.store.nodeImages - {n} == w.store.nodeImages - {n};
        DisturbanceKeepsOwnership(w, w', n, owners);
      case _ => SameObjectsSameOwned(w, w');
    }
  }

  lemma SameObjectsSameOwned(w: World, w': World)
    requires DoneIsOwned(w) && w'.store.nodeImages.Keys == w.store.nodeImages.Keys
    requires forall n :: n in w.store.nodeImages ==> w'.store.nodeImages[n].owners == w.store.nodeImages[n].owners
    requires forall k :: k in w'.tasks ==>
               || w'.tasks[k].done == 0
               || (k in w.tasks && w'.tasks[k] == w.tasks[k].(read := w'.tasks[k].read))
    ensures DoneIsOwned(w')
  {
    forall p, n
      ensures Owns(w'.store, p, n) <==> Owns(w.store, p, n)
    {
    }
  }

  lemma VisitKeepsOwnership(cfg: Config, w: World, v: Visit)
    requires DoneIsOwned(w) && LegitVisit(w, v)
    ensures var w' := ApplyVisit(cfg, w, v); DoneIsOwned(w')
  {
    SameObjectsSameOwned(w, ApplyVisit(cfg, w, v));
  }

  lemma AdoptionKeepsDone(w: World, w': World, name: string)
    requires TasksInRange(w) && Versioned(w) && StackFlagsAgree(w) && DoneIsOwned(w)
    requires name in w.tasks && w.tasks[name].done < |w.tasks[name].items| && WriteAccepted(w, w.tasks[name])
    requires w'.store.nodeImages == WriteOf(w.store, w.tasks[name]).nodeImages
    requires w'.tasks - {name} == w.tasks - {name}
    requires name in w'.tasks ==> w'.tasks[name] == DoneOne(w.tasks[name])
    ensures DoneIsOwned(w')
  {
    var t, s := w.tasks[name], WriteOf(w.store, w.tasks[name]);
    WriteAdopts(w, name);
    forall k | k in w'.tasks
      ensures Exact(s, w'.tasks[k])
    {
      if k == name {
        WriterStaysExact(w.store, s, t);
      } else {
        assert k in w'.tasks - {name} && w'.tasks[k] == (w'.tasks - {name})[k] == w.tasks[k];
        OthersStayExact(w.store, s, t.items[t.done].name, t.release.identity, w.tasks[k]);
      }
    }
    forall p, n
      ensures Owns(w'.store, p, n) <==> Owns(s, p, n)
    {
    }
  }

  lemma StackKeepsOwnership(cfg: Config, w: World, name: string, s: StackStep)
    requires TasksInRange(w) && Versioned(w) && StackFlagsAgree(w) && DoneIsOwned(w) && LegitStack(cfg, w, name, s)
    ensures var w' := ApplyStack(cfg, w, name, s); DoneIsOwned(w')
  {
    var w' := ApplyStack(cfg, w, name, s);
    StackFrame(cfg, w, name, s);
    if s.Write? && s.answer != Rejected(false) {
      assert w'.tasks - {name} == w.tasks - {name};
      AdoptionKeepsDone(w, w', name);
    } else {
      SameObjectsSameOwned(w, w');
    }
  }

  lemma OutsideKeepsImages(cfg: Config, w: World, s: OutsideStep)
    requires SpecsKnown(cfg, w) && ImagesInOrder(cfg, w) && LegitOutside(cfg, w, s)
    ensures var w' := ApplyOutside(cfg, w, s); ImagesInOrder(cfg, w')
  {
    if s.Drift? {
      DriftKeepsImages(w.images, s.images, cfg.specs, w.serial);
    } else {
      var w' := ApplyOutside(cfg, w, s);
      assert w'.images == w.images && w'.serial == w.serial;
    }
  }

  /** A visit makes an image only from options with a name, when its lookup found none, and under a free ID. */
  lemma MakesOnlyWhatIsMissing(cfg: Config, w: World, v: Visit)
    requires LegitVisit(w, v)
    ensures var opts := w.store.nodeImages[v.name].spec.opts;
            var id := IdFor(opts, w.serial);
            var made := Made(VisitExit(cfg, w, v), v, id);
            made.Some? ==> opts.name != "" && made.value == id && id !in v.between && Lookup(w.images, opts) == {}
  {
  }

  lemma VisitKeepsImages(cfg: Config, w: World, v: Visit)
    requires SpecsKnown(cfg, w) && ImagesInOrder(cfg, w) && LegitVisit(w, v)
    ensures var w' := ApplyVisit(cfg, w, v); ImagesInOrder(cfg, w')
  {
    var opts := w.store.nodeImages[v.name].spec.opts;
    var e := VisitExit(cfg, w, v);
    var made := Made(e, v, IdFor(opts, w.serial));
    DriftKeepsImages(w.images, v.between, cfg.specs, w.serial);
    if made.Some? {
      MakesOnlyWhatIsMissing(cfg, w, v);
      CreateKeepsImages(v.between, cfg.specs, w.serial, opts, MadeImage(opts, e, v));
    }
  }

  lemma StackKeepsImages(cfg: Config, w: World, name: string, s: StackStep)
    requires SpecsKnown(cfg, w) && ImagesInOrder(cfg, w) && LegitStack(cfg, w, name, s)
    ensures var w' := ApplyStack(cfg, w, name, s); ImagesInOrder(cfg, w')
  {
  }

  // ---------- which objects a step leaves alone ----------

  /** Somebody else deletes the object or edits its owners. */
  predicate Meddles(e: Event, name: string) {
    e.Outside? && ((e.outside.DropNode? && e.outside.node == name) || (e.outside.EditOwners? && e.outside.node == name))
  }

  lemma OutsideFrame(cfg: Config, w: World, s: OutsideStep, name: string)
    requires LegitOutside(cfg, w, s) && name in w.store.nodeImages
    ensures var w' := ApplyOutside(cfg, w, s);
            && (!Meddles(Outside(s), name) ==> name in w'.store.nodeImages && w'.store.nodeImages[name] == w.store.nodeImages[name])
            && (s.EditOwners? && s.node == name ==>
                  name in w'.store.nodeImages && w'.store.nodeImages[name].status == w.store.nodeImages[name].status)
            && (s.DropNode? ==> w'.log == w.log + [Gone(s.node)])
  {
  }

  lemma VisitFrame(cfg: Config, w: World, v: Visit, name: string)
    requires LegitVisit(w, v) && name in w.store.nodeImages
    ensures var w' := ApplyVisit(cfg, w, v);
            && name in w'.store.nodeImages
            && w'.store.nodeImages[name].owners == w.store.nodeImages[name].owners
            && w'.store.nodeImages[name].spec == w.store.nodeImages[name].spec
            && (name != v.name || !v.kept ==> w'.store.nodeImages[name] == w.store.nodeImages[name])
            && (name == v.name && v.kept ==>
                  && w'.log == w.log + [Visited(name, VisitExit(cfg, w, v), w.store.nodeImages[name].spec.opts, v.between)]
                  && w'.store.nodeImages[name].status == N.After(w.store.nodeImages[name].status, VisitExit(cfg, w, v), w.now))
  {
  }

  lemma StackFrame(cfg: Config, w: World, name: string, s: StackStep)
    requires LegitStack(cfg, w, name, s)
    ensures ApplyStack(cfg, w, name, s).store.nodeImages
         == if s.Write? && s.answer != Rejected(false) then WriteOf(w.store, w.tasks[name]).nodeImages else w.store.nodeImages
  {
  }

  // ---------- all runs ----------

  lemma OutsideKeepsInv(cfg: Config, w: World, s: OutsideStep)
    requires WellFormed(cfg) && Inv(cfg, w) && LegitOutside(cfg, w, s)
    ensures Inv(cfg, ApplyOutside(cfg, w, s))
  {
    OutsideKeepsVersions(cfg, w, s);
    OutsideKeepsSpecs(cfg, w, s);
    OutsideKeepsStackFlags(cfg, w, s);
    OutsideKeepsImports(cfg, w, s);
    OutsideKeepsFlags(cfg, w, s);
    OutsideKeepsOwnership(cfg, w, s);
    OutsideKeepsImages(cfg, w, s);
  }

  lemma VisitKeepsInv(cfg: Config, w: World, v: Visit)
    requires WellFormed(cfg) && Inv(cfg, w) && LegitVisit(w, v)
    ensures Inv(cfg, ApplyVisit(cfg, w, v))
  {
    VisitKeepsVersions(cfg, w, v);
    VisitKeepsSpecs(cfg, w, v);
    VisitKeepsStackFlags(cfg, w, v);
    VisitKeepsImports(cfg, w, v);
    VisitKeepsFlags(cfg, w, v);
    VisitKeepsOwnership(cfg, w, v);
    VisitKeepsImages(cfg, w, v);
  }

  lemma StackKeepsInv(cfg: Config, w: World, name: string, s: StackStep)
    requires WellFormed(cfg) && Inv(cfg, w) && LegitStack(cfg, w, name, s)
    ensures Inv(cfg, ApplyStack(cfg, w, name, s))
  {
    StackKeepsRange(cfg, w, name, s);
    StackKeepsVersions(cfg, w, name, s);
    StackKeepsItems(cfg, w, name, s);
    StackKeepsSpecs(cfg, w, name, s);
    StackKeepsStackFlags(cfg, w, name, s);
    StackKeepsImports(cfg, w, name, s);
    StackKeepsFlags(cfg, w, name, s);
    StackKeepsOwnership(cfg, w, name, s);
    StackKeepsImages(cfg, w, name, s);
  }

  lemma StepKeepsInv(cfg: Config, w: World, e: Event)
    requires WellFormed(cfg) && Inv(cfg, w) && Legit(cfg, w, e)
    ensures Inv(cfg, Apply(cfg, w, e))
  {
    match e {
      case Outside(s) => OutsideKeepsInv(cfg, w, s);
      case NodeVisit(v) => VisitKeepsInv(cfg, w, v);
      case Stack(name, s) => StackKeepsInv(cfg, w, name, s);
    }
  }

  lemma {:induction false} RunKeepsInv(cfg: Config, w: World, es: seq<Event>)
    requires WellFormed(cfg) && Inv(cfg, w) && Possible(cfg, w, es)
    ensures Inv(cfg, Execute(cfg, w, es))
    decreases |es|
  {
    if es != [] {
      StepKeepsInv(cfg, w, es[0]);
      RunKeepsInv(cfg, Apply(cfg, w, es[0]), es[1..]);
    }
  }

  /** Every reachable state meets the whole invariant. */
  lemma ReachableMeetsInv(cfg: Config, w: World)
    requires WellFormed(cfg) && Reachable(cfg, w)
    ensures Inv(cfg, w)
  {
    var w0, es :| Init(w0) && Possible(cfg, w0, es) && Execute(cfg, w0, es) == w;
    RunKeepsInv(cfg, w0, es);
  }
}
