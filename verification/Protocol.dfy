/** The two controllers, the API server and the image service as one state machine. OpenStackClusterStackRelease
    reconciliations are in flight as tasks and interleave call by call; an OpenStackNodeImageRelease
    reconciliation is one step during which images may drift. Every remote call and every patch may fail. */
module Protocol {
  import opened Wrappers
  import opened Owners
  import opened Glance
  import opened Cluster
  import opened StackReconciler
  import N = NodeImageReconciler

  /** The release assets that exist, the create options that objects of the project may carry, the import timeout. */
  datatype Config = Config(catalog: map<string, Assets>, specs: set<CreateOpts>, timeout: int)

  ghost predicate WellFormed(cfg: Config) {
    forall tag, i :: tag in cfg.catalog && 0 <= i < |cfg.catalog[tag].images| ==>
         cfg.catalog[tag].images[i].opts in cfg.specs
  }

  // ---------- state ----------

  datatype Read = Unread | Absent | Seen(copy: NodeImageRelease)

  /** An OpenStackClusterStackRelease reconciliation in its loop over the items: the copy of the release it
      works for, the items done so far, and what the last Get returned. `lost` is history: the objects that
      somebody else deleted, or left without the release among their owners, and that it has not come to own again. */
  datatype Task = Task(release: StackRelease, items: seq<Item>, done: nat, read: Read, lost: set<string>)

  /** History of the OpenStackNodeImageRelease objects: patched reconciliations, with the images as they were
      when the status was fetched, creations and deletions. */
  datatype Entry = Visited(name: string, exit: N.Exit, opts: CreateOpts, seen: Images) | Born(name: string) | Gone(name: string)

  datatype World = World(now: nat, store: Store, images: Images, serial: nat, downloaded: set<string>,
                         tasks: map<string, Task>, log: seq<Entry>,
                         created: multiset<ImageId>, imported: multiset<ImageId>)

  ghost predicate Init(w: World) {
    && w.store.nodeImages == map[] && w.store.releases == map[] && w.images == map[] && w.tasks == map[]
    && w.downloaded == {} && w.log == [] && w.created == multiset{} && w.imported == multiset{}
  }

  // ---------- steps ----------

  datatype WriteAnswer = Accepted | Rejected(applied: bool)

  /** Everything the two controllers do not do. */
  datatype OutsideStep =
    | Tick(seconds: nat)
    | Drift(images: Images)
    | AddRelease(release: StackRelease)
    | DropRelease(release_name: string)
    | AddNode(node: string, owners: seq<OwnerRef>, spec: Spec)
    | DropNode(node: string)
    | EditOwners(node: string, owners: seq<OwnerRef>)

  datatype StackStep =
    | Early(exit: Exit, kept: bool)
    | Begin
    | Read
    | Write(answer: WriteAnswer, kept: bool)
    | Stop(kept: bool)
    | Finish(kept: bool)

  /** A reconciliation of an OpenStackNodeImageRelease: the answers it gets, the images as they are when it
      creates or fetches, whether a create or import without a good answer happened all the same, and whether its
      patch is stored. */
  datatype Visit = Visit(name: string, answers: N.Answers, between: Images, unanswered: bool, kept: bool)

  datatype Event = Outside(outside: OutsideStep) | NodeVisit(visit: Visit) | Stack(release: string, step: StackStep)

  function VisitExit(cfg: Config, w: World, v: Visit): N.Exit
    requires v.name in w.store.nodeImages
  {
    N.ExitOf(w.store.nodeImages[v.name].status.importStarted, v.answers, w.now, cfg.timeout)
  }

  /** The answers are ones the image service may give: it lists what it has at the beginning, creates under a
      free ID when there is a name, and tells the status an image has in the end. */
  ghost predicate LegitVisit(w: World, v: Visit) {
    && v.name in w.store.nodeImages
    && var opts, a := w.store.nodeImages[v.name].spec.opts, v.answers;
       var free := opts.name != "" && IdFor(opts, w.serial) !in v.between;
       && Drifts(w.images, v.between)
       && (a.listing.Listed? ==> Lists(a.listing.ids, Lookup(w.images, opts)))
       && (a.creation.Created? ==> free && a.creation.id == IdFor(opts, w.serial))
       && (v.unanswered ==> free)
       && (a.listing.Listed? && |a.listing.ids| > 0 && a.fetch.Fetched? ==>
             a.listing.ids[0] in v.between && v.between[a.listing.ids[0]].status == a.fetch.status)
  }

  predicate WriteAccepted(w: World, t: Task)
    requires t.done < |t.items|
  {
    var name := t.items[t.done].name;
    match t.read
    case Unread => false
    case Absent => name !in w.store.nodeImages
    case Seen(copy) => name in w.store.nodeImages && w.store.nodeImages[name].version == copy.version
  }

  ghost predicate LegitOutside(cfg: Config, w: World, s: OutsideStep) {
    match s
    case Tick(_) => true
    case Drift(images) => Drifts(w.images, images)
    case AddRelease(r) =>
      && r.identity.name !in w.store.releases && r.status == StackStatus(false, Unset, Unset, Unset)
      && Parseable(r.identity.apiVersion)
    case DropRelease(name) => name in w.store.releases
    case AddNode(name, _, spec) => name !in w.store.nodeImages && spec.opts in cfg.specs
    case DropNode(name) => name in w.store.nodeImages
    case EditOwners(name, _) => name in w.store.nodeImages
  }

  ghost predicate LegitStack(cfg: Config, w: World, name: string, s: StackStep) {
    match s
    case Early(exit, _) => name in w.store.releases && name !in w.tasks && LegitEarly(cfg, w, name, exit)
    case Begin =>
      && name in w.store.releases && name !in w.tasks && name in w.downloaded && name in cfg.catalog
      && Items(w.store.releases[name], cfg.catalog[name]).Ok?
    case Read => name in w.tasks && w.tasks[name].done < |w.tasks[name].items| && w.tasks[name].read == Unread
    case Write(answer, kept) =>
      && name in w.tasks && w.tasks[name].done < |w.tasks[name].items| && w.tasks[name].read != Unread
      && (answer == Accepted || answer == Rejected(true) ==> WriteAccepted(w, w.tasks[name]))
      && Keepable(w, name, kept)
    case Stop(kept) => name in w.tasks && Keepable(w, name, kept)
    case Finish(kept) => name in w.tasks && w.tasks[name].done == |w.tasks[name].items| && Keepable(w, name, kept)
  }

  ghost predicate LegitEarly(cfg: Config, w: World, name: string, exit: Exit)
    requires name in w.store.releases
  {
    match exit
    case AssetsIssue => true
    case NoAssetsClient | DownloadFailed => name !in w.downloaded
    case Downloaded => name !in w.downloaded && name in cfg.catalog
    case Unreadable => name in w.downloaded
    case BadTag => name in w.downloaded && name in cfg.catalog && Items(w.store.releases[name], cfg.catalog[name]).Err?
    case _ => false
  }

  ghost predicate Legit(cfg: Config, w: World, e: Event) {
    match e
    case Outside(s) => LegitOutside(cfg, w, s)
    case NodeVisit(v) => LegitVisit(w, v)
    case Stack(name, s) => LegitStack(cfg, w, name, s)
  }

  /** A patch reaches the release only while it is the one that was read. */
  ghost predicate Keepable(w: World, name: string, kept: bool)
    requires name in w.tasks
  {
    kept ==> name in w.store.releases && w.store.releases[name] == w.tasks[name].release
  }

  // ---------- what a step does ----------

  /** The image a visit makes, if any. */
  function Made(e: N.Exit, v: Visit, id: ImageId): Option<ImageId> {
    match e
    case NotCreated => if v.unanswered then Some(id) else None
    case NotImported(made) => Some(made)
    case ImportBegun(made) => Some(made)
    case _ => None
  }

  function MadeImage(opts: CreateOpts, e: N.Exit, v: Visit): Image {
    Image(opts, e.ImportBegun? || (e.NotImported? && v.unanswered), Queued)
  }

  function ApplyVisit(cfg: Config, w: World, v: Visit): World
    requires v.name in w.store.nodeImages
  {
    var o := w.store.nodeImages[v.name];
    var e := VisitExit(cfg, w, v);
    var made := Made(e, v, IdFor(o.spec.opts, w.serial));
    w.(store := if v.kept then PatchNodeImage(w.store, v.name, N.After(o.status, e, w.now)) else w.store,
       images := if made.Some? then v.between[made.value := MadeImage(o.spec.opts, e, v)] else v.between,
       serial := w.serial + 1,
       log := if v.kept then w.log + [Visited(v.name, e, o.spec.opts, v.between)] else w.log,
       created := if made.Some? then w.created + multiset{made.value} else w.created,
       imported := if e.NotImported? || e.ImportBegun? then w.imported + multiset{e.id} else w.imported)
  }

  function WriteOf(s: Store, t: Task): Store
    requires t.done < |t.items|
  {
    var it, owner := t.items[t.done], Generate(t.release.identity);
    match t.read
    case Seen(copy) =>
      if it.name in s.nodeImages then WriteNodeImage(s, it.name, EnsureOwnerRef(copy.owners, owner), copy.spec) else s
    case _ => AddNodeImage(s, it.name, [owner], it.spec)
  }

  function Patched(w: World, name: string, e: Exit, kept: bool): Store
    requires name in w.tasks
  {
    if kept && name in w.store.releases then
      PatchRelease(w.store, name, StatusAfter(w.tasks[name].release.status, e, w.now))
    else w.store
  }

  ghost function Judgement(w: World, name: string): Exit
    requires name in w.tasks
  {
    if AllReady(w.store, w.tasks[name].release.identity) then ReadyNow else NotReadyYet
  }

  /** Somebody else left the object with these owners. */
  ghost function DisturbedTask(t: Task, name: string, owners: seq<OwnerRef>): Task {
    t.(lost := if OwnedBy(owners, t.release.identity) then t.lost - {name} else t.lost + {name})
  }

  ghost function Disturbed(tasks: map<string, Task>, name: string, owners: seq<OwnerRef>): map<string, Task> {
    map n | n in tasks :: DisturbedTask(tasks[n], name, owners)
  }

  function BornOf(t: Task): seq<Entry>
    requires t.done < |t.items|
  {
    if t.read == Absent then [Born(t.items[t.done].name)] else []
  }

  ghost function ApplyOutside(cfg: Config, w: World, s: OutsideStep): World
    requires LegitOutside(cfg, w, s)
  {
    match s
    case Tick(d) => w.(now := w.now + d)
    case Drift(images) => w.(images := images)
    case AddRelease(r) => w.(store := w.store.(releases := w.store.releases[r.identity.name := r]))
    case DropRelease(name) => w.(store := w.store.(releases := w.store.releases - {name}))
    case AddNode(name, owners, spec) =>
      w.(store := AddNodeImage(w.store, name, owners, spec), log := w.log + [Born(name)],
         tasks := Disturbed(w.tasks, name, owners))
    case DropNode(name) =>
      w.(store := w.store.(nodeImages := w.store.nodeImages - {name}), log := w.log + [Gone(name)],
         tasks := Disturbed(w.tasks, name, []))
    case EditOwners(name, owners) =>
      w.(store := WriteNodeImage(w.store, name, owners, w.store.nodeImages[name].spec),
         tasks := Disturbed(w.tasks, name, owners))
  }

  /** The write of the item at hand, where the API server takes it. */
  function Written(w: World, name: string): World
    requires name in w.tasks && w.tasks[name].done < |w.tasks[name].items|
  {
    w.(store := WriteOf(w.store, w.tasks[name]), log := w.log + BornOf(w.tasks[name]))
  }

  function DoneOne(t: Task): Task
    requires t.done < |t.items|
  {
    t.(done := t.done + 1, read := Unread, lost := t.lost - {t.items[t.done].name})
  }

  ghost function ApplyStack(cfg: Config, w: World, name: string, s: StackStep): World
    requires LegitStack(cfg, w, name, s)
  {
    match s
    case Early(exit, kept) =>
      w.(downloaded := if exit == Downloaded then w.downloaded + {name} else w.downloaded,
         store := if kept then PatchRelease(w.store, name, StatusAfter(w.store.releases[name].status, exit, w.now))
                  else w.store)
    case Begin =>
      var r := w.store.releases[name];
      w.(tasks := w.tasks[name := Task(r, Items(r, cfg.catalog[name]).value, 0, Unread, {})])
    case Read =>
      var t := w.tasks[name];
      var it := t.items[t.done].name;
      w.(tasks := w.tasks[name := t.(read := if it in w.store.nodeImages then Seen(w.store.nodeImages[it]) else Absent)])
    case Write(answer, kept) =>
      var t := w.tasks[name];
      if answer == Accepted then
        Written(w, name).(tasks := w.tasks[name := DoneOne(t)])
      else
        var v := if answer == Rejected(true) then Written(w, name) else w;
        v.(store := Patched(v, name, WriteFailed, kept), tasks := w.tasks - {name})
    case Stop(kept) => w.(store := Patched(w, name, ListFailed, kept), tasks := w.tasks - {name})
    case Finish(kept) => w.(store := Patched(w, name, Judgement(w, name), kept), tasks := w.tasks - {name})
  }

  ghost function Apply(cfg: Config, w: World, e: Event): World
    requires Legit(cfg, w, e)
  {
    match e
    case Outside(s) => ApplyOutside(cfg, w, s)
    case NodeVisit(v) => ApplyVisit(cfg, w, v)
    case Stack(name, s) => ApplyStack(cfg, w, name, s)
  }

  // ---------- runs ----------

  ghost predicate Possible(cfg: Config, w: World, es: seq<Event>)
    decreases |es|
  {
    es == [] || (Legit(cfg, w, es[0]) && Possible(cfg, Apply(cfg, w, es[0]), es[1..]))
  }

  ghost function Execute(cfg: Config, w: World, es: seq<Event>): World
    requires Possible(cfg, w, es)
    decreases |es|
  {
    if es == [] then w else Execute(cfg, Apply(cfg, w, es[0]), es[1..])
  }

  ghost predicate Reachable(cfg: Config, w: World) {
    exists w0, es :: Init(w0) && Possible(cfg, w0, es) && Execute(cfg, w0, es) == w
  }
}
