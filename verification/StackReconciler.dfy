/** One reconciliation of an OpenStackClusterStackRelease: get the release assets, see that every node image
    has an OpenStackNodeImageRelease owned by this release, and go ready once all the owned ones are. */
module StackReconciler {
  import opened Wrappers
  import opened Naming
  import opened Owners
  import opened Glance
  import opened Cluster

  datatype NodeImage = NodeImage(url: string, opts: CreateOpts)

  /** The decoded files of a release. */
  datatype Assets = Assets(images: seq<NodeImage>, nodeVersion: string)

  /** An OpenStackNodeImageRelease that a release needs. */
  datatype Item = Item(name: string, spec: Spec)

  /** The items of a release. The tag is cut once for each image, so a bad tag does no harm without images. */
  function Items(r: StackRelease, a: Assets): Result<seq<Item>, TagError> {
    if a.images == [] then Ok([])
    else match CutVersion(r.identity.name)
      case Err(e) => Err(e)
      case Ok(prefix) =>
        Ok(seq(|a.images|, i requires 0 <= i < |a.images| =>
          Item(DerivedName(prefix, a.images[i].opts.name, a.nodeVersion),
               Spec(a.images[i].url, a.images[i].opts, r.identityRef))))
  }

  // ---------- creating and adopting ----------

  /** createOrUpdateOpenStackNodeImageRelease without interference: add the owner, or create the object. */
  function EnsureOne(s: Store, it: Item, owner: OwnerRef): Store {
    if it.name in s.nodeImages then
      var o := s.nodeImages[it.name];
      WriteNodeImage(s, it.name, EnsureOwnerRef(o.owners, owner), o.spec)
    else
      AddNodeImage(s, it.name, [owner], it.spec)
  }

  function EnsureAll(s: Store, items: seq<Item>, owner: OwnerRef): Store {
    if items == [] then s
    else EnsureOne(EnsureAll(s, items[..|items| - 1], owner), items[|items| - 1], owner)
  }

  lemma {:induction false} EnsureAllKeepsReleases(s: Store, items: seq<Item>, owner: OwnerRef)
    ensures EnsureAll(s, items, owner).releases == s.releases
  {
    if items != [] {
      EnsureAllKeepsReleases(s, items[..|items| - 1], owner);
    }
  }

  // ---------- judging ----------

  ghost predicate Owns(s: Store, r: Identity, name: string) {
    name in s.nodeImages && OwnedBy(s.nodeImages[name].owners, r)
  }

  /** The release owns something, and all it owns is ready. */
  ghost predicate AllReady(s: Store, r: Identity) {
    && (exists n :: Owns(s, r, n))
    && forall n :: Owns(s, r, n) ==> s.nodeImages[n].status.ready
  }

  // ---------- the ways out ----------

  datatype Exit = AssetsIssue | NoAssetsClient | DownloadFailed | Downloaded
                | Unreadable | BadTag | WriteFailed | ListFailed | NotReadyYet | ReadyNow

  function StatusAfter(st: StackStatus, e: Exit, now: nat): StackStatus {
    StackStatus(
      if e == ReadyNow then true else if e == NotReadyYet then false else st.ready,
      match e
      case AssetsIssue => MarkFalse(st.assetsReady, IssueWithAssets, now)
      case NoAssetsClient | DownloadFailed | Downloaded => MarkFalse(st.assetsReady, NotDownloadedYet, now)
      case _ => MarkTrue(st.assetsReady, now),
      match e
      case NoAssetsClient => MarkFalse(st.assetsClient, FailedCreateAssetsClient, now)
      case DownloadFailed | Downloaded => MarkTrue(st.assetsClient, now)
      case _ => st.assetsClient,
      match e
      case ReadyNow => MarkTrue(st.nodeImagesReady, now)
      case NotReadyYet => MarkFalse(st.nodeImagesReady, ProcessOngoing, now)
      case _ => st.nodeImagesReady)
  }

  function ResultOf(e: Exit): Return {
    match e
    case AssetsIssue | DownloadFailed => RequeueAfter(60)
    case NoAssetsClient | ReadyNow => Done
    case Downloaded => Requeue
    case Unreadable | BadTag | WriteFailed | ListFailed => Failed
    case NotReadyYet => RequeueAfter(30)
  }

  /** What a reconciliation meets before the node images: whether the release can be told from its tag and directory,
      whether there is an assets client, whether the download succeeds, whether the files can be read. */
  datatype AssetAnswers = AssetAnswers(valid: bool, client: bool, downloads: bool, readable: bool)

  /** What must be met for each way out. A write or the list fails only where a call to the API server does. */
  predicate Meets(dir: map<string, Assets>, repository: map<string, Assets>, r: StackRelease, a: AssetAnswers, e: Exit) {
    var tag := r.identity.name;
    match e
    case AssetsIssue => !a.valid
    case NoAssetsClient => a.valid && tag !in dir && !a.client
    case DownloadFailed => a.valid && tag !in dir && a.client && !(a.downloads && tag in repository)
    case Downloaded => a.valid && tag !in dir && a.client && a.downloads && tag in repository
    case Unreadable => a.valid && tag in dir && !a.readable
    case BadTag => a.valid && tag in dir && a.readable && Items(r, dir[tag]).Err?
    case WriteFailed | ListFailed | NotReadyYet | ReadyNow => Readable(dir, r, a)
  }

  /** The loop over the node images is reached. */
  predicate Readable(dir: map<string, Assets>, r: StackRelease, a: AssetAnswers) {
    a.valid && r.identity.name in dir && a.readable && Items(r, dir[r.identity.name]).Ok?
  }

  // ---------- the reconciler ----------

  /** The reconciler's copy of the release, which it changes step by step. */
  class ReleaseCopy {
    const release: StackRelease
    var ready: bool
    var assetsReady: Condition
    var assetsClient: Condition
    var nodeImagesReady: Condition

    constructor (r: StackRelease)
      ensures release == r && Contents() == r.status
    {
      release, ready := r, r.status.ready;
      assetsReady, assetsClient, nodeImagesReady := r.status.assetsReady, r.status.assetsClient, r.status.nodeImagesReady;
    }

    function Contents(): StackStatus
      reads this
    {
      StackStatus(ready, assetsReady, assetsClient, nodeImagesReady)
    }
  }

  class StackReconciler {
    /** What the assets repository offers. */
    const repository: map<string, Assets>
    /** The release directory on disk. */
    var directory: map<string, Assets>

    constructor (repository: map<string, Assets>)
      ensures this.repository == repository && directory == map[]
    {
      this.repository, directory := repository, map[];
    }

    /** downloadReleaseAssets: on failure nothing is left of the release, so that it is tried again. */
    method Download(tag: string, succeeds: bool) returns (ok: bool)
      modifies this
      ensures ok <==> succeeds && tag in repository
      ensures directory == if ok then old(directory)[tag := repository[tag]] else old(directory) - {tag}
    {
      ok := succeeds && tag in repository;
      if ok {
        directory := directory[tag := repository[tag]];
      } else {
        directory := directory - {tag};
      }
    }

    /** Before the node images: exit None means that the assets are there. */
    method FetchAssets(copy: ReleaseCopy, a: AssetAnswers, now: nat) returns (exit: Option<Exit>, result: Return)
      modifies this, copy
      ensures var tag := copy.release.identity.name;
              match exit
              case None => a.valid && tag in directory && directory == old(directory)
              case Some(e) => (e == AssetsIssue || e == NoAssetsClient || e == DownloadFailed || e == Downloaded)
                              && Meets(old(directory), repository, copy.release, a, e)
                              && directory == if e == Downloaded then old(directory)[tag := repository[tag]] else old(directory)
      ensures match exit
              case None => copy.Contents() == old(copy.Contents())
              case Some(e) => copy.Contents() == StatusAfter(old(copy.Contents()), e, now) && result == ResultOf(e)
      ensures exit.Some? ==>
                && copy.assetsReady.Marked? && !copy.assetsReady.ok
                && copy.assetsReady.reason == (if a.valid then NotDownloadedYet else IssueWithAssets)
                && (if a.valid then copy.assetsClient.IsTrue() == a.client else copy.assetsClient == old(copy.assetsClient))
                && result == if !a.valid then RequeueAfter(60)
                             else if copy.release.identity.name in directory then Requeue
                             else if a.client then RequeueAfter(60) else Done
    {
      var tag := copy.release.identity.name;
      result := Done;
      if !a.valid {
        copy.assetsReady := MarkFalse(copy.assetsReady, IssueWithAssets, now);
        return Some(AssetsIssue), RequeueAfter(60);
      }
      if tag in directory {
        return None, Done;
      }
      copy.assetsReady := MarkFalse(copy.assetsReady, NotDownloadedYet, now);
      if !a.client {
        copy.assetsClient := MarkFalse(copy.assetsClient, FailedCreateAssetsClient, now);
        return Some(NoAssetsClient), Done;
      }
      copy.assetsClient := MarkTrue(copy.assetsClient, now);
      var ok := Download(tag, a.downloads);
      if !ok {
        assert directory == old(directory);
        return Some(DownloadFailed), RequeueAfter(60);
      }
      return Some(Downloaded), Requeue;
    }

    /** createOrUpdateOpenStackNodeImageRelease */
    method CreateOrUpdate(api: ApiServer, it: Item, owner: OwnerRef) returns (ok: bool)
      modifies api
      ensures ok <==> api.failures == old(api.failures)
      ensures api.failures >= old(api.failures)
      ensures ok ==> api.Contents() == EnsureOne(old(api.Contents()), it, owner)
      ensures !ok ==> api.Contents() == old(api.Contents()) || api.Contents() == EnsureOne(old(api.Contents()), it, owner)
    {
      var reply := api.GetNodeImage(it.name);
      match reply {
        case Found(o) =>
          ok := api.UpdateNodeImage(it.name, o.(owners := EnsureOwnerRef(o.owners, owner)));
        case Failure =>
          ok := false;
        case NotFound =>
          ok := api.CreateNodeImage(it.name, NodeImageRelease([owner], it.spec, FRESH, 0));
      }
    }

    /** The loop over the node images; it stops at the first failure. */
    method EnsureNodeImages(api: ApiServer, items: seq<Item>, owner: OwnerRef) returns (ok: bool)
      modifies api
      ensures ok <==> api.failures == old(api.failures)
      ensures api.failures >= old(api.failures)
      ensures ok ==> api.Contents() == EnsureAll(old(api.Contents()), items, owner)
      ensures !ok ==> exists k :: 0 <= k <= |items| && api.Contents() == EnsureAll(old(api.Contents()), items[..k], owner)
    {
      ghost var s := api.Contents();
      for i := 0 to |items|
        invariant api.Contents() == EnsureAll(s, items[..i], owner) && api.failures == old(api.failures)
      {
        assert items[..i + 1][..i] == items[..i];
        ok := CreateOrUpdate(api, items[i], owner);
        if !ok {
          assert api.Contents() == EnsureAll(s, items[..i], owner) || api.Contents() == EnsureAll(s, items[..i + 1], owner);
          return;
        }
      }
      assert items[..|items|] == items;
      ok := true;
    }

    /** List what the release owns and look whether all of it is ready. */
    method Judge(api: ApiServer, r: Identity) returns (ok: bool, ready: bool)
      modifies api`failures
      ensures api.failures == old(api.failures) + if ok then 0 else 1
      ensures ok ==> ready == AllReady(api.Contents(), r)
    {
      ready := false;
      var names;
      ok, names := api.ListNodeImages();
      if !ok {
        return;
      }
      var all := seq(|names|, i requires 0 <= i < |names| reads api requires names[i] in api.nodeImages =>
        (api.nodeImages[names[i]].owners, names[i]));
      var owned := GetOwned(all, r);
      OwnedIsExact(all, r);
      ghost var s := api.Contents();
      assert forall n :: n in Values(owned) <==> Owns(s, r, n) by {
        forall n
          ensures n in Owned(all, r) <==> Owns(s, r, n)
        {
          if Owns(s, r, n) {
            var i :| 0 <= i < |names| && names[i] == n;
            assert all[i].1 == n && OwnedBy(all[i].0, r);
          }
        }
      }
      if |owned| == 0 {
        return;
      }
      assert Values(owned)[0] in Values(owned);
      for i := 0 to |owned|
        invariant forall k :: 0 <= k < i ==> Values(owned)[k] in s.nodeImages && s.nodeImages[Values(owned)[k]].status.ready
      {
        assert Values(owned)[i] == owned[i].value && Values(owned)[i] in Values(owned);
        assert Owns(s, r, owned[i].value);
        if !api.nodeImages[owned[i].value].status.ready {
          return;
        }
      }
      ready := true;
    }

    /** Ready, or not yet. */
    method Conclude(copy: ReleaseCopy, ready: bool, now: nat) returns (exit: Exit, result: Return)
      modifies copy
      ensures exit == (if ready then ReadyNow else NotReadyYet) && result == ResultOf(exit)
      ensures copy.Contents() == old(copy.Contents()).(ready := ready,
                nodeImagesReady := StatusAfter(old(copy.Contents()), exit, now).nodeImagesReady)
      ensures copy.nodeImagesReady.Marked? && copy.nodeImagesReady.ok == ready
      ensures copy.nodeImagesReady.reason == if ready then NoReason else ProcessOngoing
      ensures result == if ready then Done else RequeueAfter(30)
    {
      if !ready {
        copy.nodeImagesReady := MarkFalse(copy.nodeImagesReady, ProcessOngoing, now);
        copy.ready := false;
        return NotReadyYet, RequeueAfter(30);
      }
      copy.nodeImagesReady := MarkTrue(copy.nodeImagesReady, now);
      copy.ready := true;
      return ReadyNow, Done;
    }

    /** The body of Reconcile between reading the release and the deferred patch. */
    method Run(api: ApiServer, copy: ReleaseCopy, a: AssetAnswers, now: nat) returns (exit: Exit, result: Return)
      modifies this, api, copy
      ensures Meets(old(directory), repository, copy.release, a, exit)
      ensures exit == WriteFailed || exit == ListFailed <==> api.failures != old(api.failures)
      ensures api.failures >= old(api.failures)
      ensures Outcome(old(directory), directory, old(api.Contents()), api.Contents(), copy.release, exit)
      ensures copy.Contents() == StatusAfter(old(copy.Contents()), exit, now) && result == ResultOf(exit)
      ensures copy.assetsReady.IsTrue() <==> a.valid && copy.release.identity.name in old(directory)
      ensures Readable(old(directory), copy.release, a) && api.failures == old(api.failures) ==>
                (copy.ready <==> AllReady(api.Contents(), copy.release.identity))
                && result == if copy.ready then Done else RequeueAfter(30)
      ensures exit == Downloaded ==>
                var tag := copy.release.identity.name;
                tag in repository && directory == old(directory)[tag := repository[tag]]
    {
      var r := copy.release;
      var fetched;
      fetched, result := FetchAssets(copy, a, now);
      if fetched.Some? {
        return fetched.value, result;
      }
      copy.assetsReady := MarkTrue(copy.assetsReady, now);
      if !a.readable {
        return Unreadable, Failed;
      }
      var items := Items(r, directory[r.identity.name]);
      if items.Err? {
        return BadTag, Failed;
      }
      var ok := EnsureNodeImages(api, items.value, Generate(r.identity));
      if !ok {
        ghost var k :| 0 <= k <= |items.value|
                       && api.Contents() == EnsureAll(old(api.Contents()), items.value[..k], Generate(r.identity));
        EnsureAllKeepsReleases(old(api.Contents()), items.value[..k], Generate(r.identity));
        return WriteFailed, Failed;
      }
      EnsureAllKeepsReleases(old(api.Contents()), items.value, Generate(r.identity));
      var ready;
      ok, ready := Judge(api, r.identity);
      if !ok {
        return ListFailed, Failed;
      }
      exit, result := Conclude(copy, ready, now);
    }

    /** Reconcile, with the deferred patch of the status. A release that got through its loop is called again after 30
        seconds exactly if not all it owns is ready; and only a release that is ready, or one that cannot be downloaded
        for want of an assets client, is not called again. */
    method Reconcile(api: ApiServer, name: string, a: AssetAnswers, now: nat) returns (exit: Option<Exit>, result: Return)
      modifies this, api
      ensures var s, failed := old(api.Contents()), api.failures != old(api.failures);
              match exit
              case None =>
                && api.Contents() == s && directory == old(directory)
                && if failed then result == Failed else name !in s.releases && result == Done
              case Some(e) =>
                && name in s.releases && Meets(old(directory), repository, s.releases[name], a, e)
                && (e == WriteFailed || e == ListFailed ==> failed)
                && Leaves(old(directory), directory, s, api.Contents(), name, e, now, failed, result)
      ensures name in old(api.releases) && api.failures == old(api.failures) ==>
                var r := old(api.releases[name]);
                Readable(old(directory), r, a) ==>
                  && (result == Done <==> AllReady(api.Contents(), r.identity))
                  && (result == RequeueAfter(30) <==> !AllReady(api.Contents(), r.identity))
                  && name in api.releases && (api.releases[name].status.ready <==> AllReady(api.Contents(), r.identity))
      ensures name in old(api.releases) && result == Done ==>
                var r := old(api.releases[name]);
                || (name in api.releases && api.releases[name].status.ready && AllReady(api.Contents(), r.identity))
                || (a.valid && r.identity.name !in old(directory) && !a.client)
    {
      var reply := api.GetRelease(name);
      if !reply.Found? {
        return None, if reply.NotFound? then Done else Failed;
      }
      var copy := new ReleaseCopy(reply.value);
      var e;
      e, result := Run(api, copy, a, now);
      ghost var mid := api.Contents();
      var patched := api.PatchReleaseStatus(name, copy.Contents());
      PatchKeepsAllReady(mid, name, copy.Contents(), copy.release.identity);
      if !patched {
        result := Failed;
      }
      exit := Some(e);
    }
  }

  lemma PatchKeepsAllReady(s: Store, name: string, status: StackStatus, r: Identity)
    requires name in s.releases
    ensures AllReady(PatchRelease(s, name, status), r) <==> AllReady(s, r)
  {
    var t := PatchRelease(s, name, status);
    assert forall n :: Owns(t, r, n) <==> Owns(s, r, n);
  }

  /** The status of the way out is stored and its result returned, or the patch failed. */
  ghost predicate Leaves(dir: map<string, Assets>, dir': map<string, Assets>, s: Store, s': Store, name: string, e: Exit,
                         now: nat, failed: bool, result: Return)
    requires name in s.releases
  {
    exists mid: Store ::
      && Outcome(dir, dir', s, mid, s.releases[name], e)
      && (|| (failed && s' == mid && result == Failed)
          || (s' == PatchRelease(mid, name, StatusAfter(s.releases[name].status, e, now)) && result == ResultOf(e)))
  }

  /** What one reconciliation without interference may do to the directory and the objects, by way out. */
  ghost predicate Outcome(dir: map<string, Assets>, dir': map<string, Assets>, s: Store, s': Store, r: StackRelease, e: Exit) {
    var tag := r.identity.name;
    && s'.releases == s.releases
    && match e
       case AssetsIssue => dir' == dir && s' == s
       case NoAssetsClient | DownloadFailed => tag !in dir && dir' == dir && s' == s
       case Downloaded => tag !in dir && dir'.Keys == dir.Keys + {tag} && s' == s
       case Unreadable => tag in dir && dir' == dir && s' == s
       case BadTag => tag in dir && dir' == dir && s' == s && Items(r, dir[tag]).Err?
       case WriteFailed =>
         && tag in dir && dir' == dir && Items(r, dir[tag]).Ok?
         && var items := Items(r, dir[tag]).value;
            exists k :: 0 <= k <= |items| && s' == EnsureAll(s, items[..k], Generate(r.identity))
       case ListFailed | NotReadyYet | ReadyNow =>
         && tag in dir && dir' == dir && Items(r, dir[tag]).Ok?
         && s' == EnsureAll(s, Items(r, dir[tag]).value, Generate(r.identity))
         && (e == ReadyNow ==> AllReady(s', r.identity))
         && (e == NotReadyYet ==> !AllReady(s', r.identity))
  }
}
