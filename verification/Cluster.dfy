/** The API server: the objects of one namespace, their conditions and their resource versions. */
module Cluster {
  import opened Owners
  import opened Glance

  // ---------- conditions ----------

  datatype Reason = NoReason
                  | SecretNotFound | CloudNotSet | ImageServiceClientNotSet
                  | IssueWithImage | NotCreatedYet | NotImportedYet | ImportTimeOut | ImportNotStarted
                  | NotDownloadedYet | IssueWithAssets | FailedCreateAssetsClient | ProcessOngoing

  datatype Condition = Unset | Marked(ok: bool, reason: Reason, since: nat) {
    predicate IsTrue() { Marked? && ok }
  }

  /** Not true, for this reason. */
  predicate Shows(c: Condition, reason: Reason) {
    c.Marked? && !c.ok && c.reason == reason
  }

  /** The library contract: the transition time moves only when the state of the condition changes. */
  function Mark(c: Condition, ok: bool, reason: Reason, now: nat): Condition {
    if c.Marked? && c.ok == ok && c.reason == reason then c else Marked(ok, reason, now)
  }

  function MarkTrue(c: Condition, now: nat): Condition { Mark(c, true, NoReason, now) }

  function MarkFalse(c: Condition, reason: Reason, now: nat): Condition { Mark(c, false, reason, now) }

  // ---------- objects ----------

  datatype Spec = Spec(url: string, opts: CreateOpts, identityRef: string)

  datatype Status = Status(ready: bool, cloud: Condition, service: Condition,
                           imageReady: Condition, importStarted: Condition)

  const FRESH := Status(false, Unset, Unset, Unset, Unset)

  /** An OpenStackNodeImageRelease. */
  datatype NodeImageRelease = NodeImageRelease(owners: seq<OwnerRef>, spec: Spec, status: Status, version: nat)

  datatype StackStatus = StackStatus(ready: bool, assetsReady: Condition, assetsClient: Condition,
                                     nodeImagesReady: Condition)

  /** An OpenStackClusterStackRelease; its name is its release tag. */
  datatype StackRelease = StackRelease(identity: Identity, identityRef: string, status: StackStatus)

  /** Every write takes the next revision as the resource version of the object written. */
  datatype Store = Store(revision: nat, nodeImages: map<string, NodeImageRelease>, releases: map<string, StackRelease>)

  // ---------- writes ----------

  /** Update: metadata and spec are replaced, the status subresource is not. A write that changes nothing
      keeps the resource version. */
  function WriteNodeImage(s: Store, name: string, owners: seq<OwnerRef>, spec: Spec): Store
    requires name in s.nodeImages
  {
    var o := s.nodeImages[name];
    if o.owners == owners && o.spec == spec then s
    else s.(revision := s.revision + 1,
            nodeImages := s.nodeImages[name := o.(owners := owners, spec := spec, version := s.revision + 1)])
  }

  /** Create: the status of a new object is empty. */
  function AddNodeImage(s: Store, name: string, owners: seq<OwnerRef>, spec: Spec): Store {
    s.(revision := s.revision + 1,
       nodeImages := s.nodeImages[name := NodeImageRelease(owners, spec, FRESH, s.revision + 1)])
  }

  /** Patch of the status subresource. */
  function PatchNodeImage(s: Store, name: string, status: Status): Store
    requires name in s.nodeImages
  {
    var o := s.nodeImages[name];
    if o.status == status then s
    else s.(revision := s.revision + 1,
            nodeImages := s.nodeImages[name := o.(status := status, version := s.revision + 1)])
  }

  function PatchRelease(s: Store, name: string, status: StackStatus): Store
    requires name in s.releases
  {
    s.(releases := s.releases[name := s.releases[name].(status := status)])
  }

  /** What a reconciliation tells the controller runtime: it is called again at once, after a while, with
      growing delays after an error, or else only when an object changes or is due for a periodic visit. */
  datatype Return = Done | Requeue | RequeueAfter(seconds: nat) | Failed

  // ---------- the client the reconcilers use ----------

  datatype Reply<T> = Found(value: T) | NotFound | Failure

  /** Any call may fail, which is counted. A failing write may still have been applied: its answer was lost. */
  class ApiServer {
    var failures: nat
    var revision: nat
    var nodeImages: map<string, NodeImageRelease>
    var releases: map<string, StackRelease>

    function Contents(): Store
      reads this
    {
      Store(revision, nodeImages, releases)
    }

    method Assign(s: Store)
      modifies this
      ensures Contents() == s && failures == old(failures)
    {
      revision, nodeImages, releases := s.revision, s.nodeImages, s.releases;
    }

    method GetNodeImage(name: string) returns (r: Reply<NodeImageRelease>)
      modifies this`failures
      ensures failures == old(failures) + if r.Failure? then 1 else 0
      ensures r.Found? ==> name in nodeImages && r.value == nodeImages[name]
      ensures r.NotFound? ==> name !in nodeImages
    {
      var fails: bool := *;
      failures := failures + if fails then 1 else 0;
      r := if fails then Failure else if name in nodeImages then Found(nodeImages[name]) else NotFound;
    }

    method GetRelease(name: string) returns (r: Reply<StackRelease>)
      modifies this`failures
      ensures failures == old(failures) + if r.Failure? then 1 else 0
      ensures r.Found? ==> name in releases && r.value == releases[name]
      ensures r.NotFound? ==> name !in releases
    {
      var fails: bool := *;
      failures := failures + if fails then 1 else 0;
      r := if fails then Failure else if name in releases then Found(releases[name]) else NotFound;
    }

    /** Refused unless the object is there in the version that was read. */
    method UpdateNodeImage(name: string, o: NodeImageRelease) returns (ok: bool)
      modifies this
      ensures var s := old(Contents());
              var accepted := name in s.nodeImages && s.nodeImages[name].version == o.version;
              && (ok <==> accepted && failures == old(failures)) && failures >= old(failures)
              && (ok ==> Contents() == WriteNodeImage(s, name, o.owners, o.spec))
              && (!ok ==> Contents() == s || (accepted && Contents() == WriteNodeImage(s, name, o.owners, o.spec)))
    {
      var fails: bool := *;
      var lost: bool := *;
      var accepted := name in nodeImages && nodeImages[name].version == o.version;
      if accepted && (!fails || lost) {
        Assign(WriteNodeImage(Contents(), name, o.owners, o.spec));
      }
      failures := failures + if fails then 1 else 0;
      ok := accepted && !fails;
    }

    /** Refused when the name is taken. */
    method CreateNodeImage(name: string, o: NodeImageRelease) returns (ok: bool)
      modifies this
      ensures var s := old(Contents());
              && (ok <==> name !in s.nodeImages && failures == old(failures)) && failures >= old(failures)
              && (ok ==> Contents() == AddNodeImage(s, name, o.owners, o.spec))
              && (!ok ==> Contents() == s
                          || (name !in s.nodeImages && Contents() == AddNodeImage(s, name, o.owners, o.spec)))
    {
      var fails: bool := *;
      var lost: bool := *;
      var accepted := name !in nodeImages;
      if accepted && (!fails || lost) {
        Assign(AddNodeImage(Contents(), name, o.owners, o.spec));
      }
      failures := failures + if fails then 1 else 0;
      ok := accepted && !fails;
    }

    method PatchNodeImageStatus(name: string, status: Status) returns (ok: bool)
      requires name in nodeImages
      modifies this
      ensures Contents() == if ok then PatchNodeImage(old(Contents()), name, status) else old(Contents())
      ensures failures == old(failures) + if ok then 0 else 1
    {
      ok := *;
      failures := failures + if ok then 0 else 1;
      if ok {
        Assign(PatchNodeImage(Contents(), name, status));
      }
    }

    method PatchReleaseStatus(name: string, status: StackStatus) returns (ok: bool)
      requires name in releases
      modifies this
      ensures Contents() == if ok then PatchRelease(old(Contents()), name, status) else old(Contents())
      ensures failures == old(failures) + if ok then 0 else 1
    {
      ok := *;
      failures := failures + if ok then 0 else 1;
      if ok {
        Assign(PatchRelease(Contents(), name, status));
      }
    }

    /** Every object of the namespace, once, in some order. */
    method ListNodeImages() returns (ok: bool, names: seq<string>)
      modifies this`failures
      ensures failures == old(failures) + if ok then 0 else 1
      ensures ok ==> Enumerates(names, nodeImages.Keys)
    {
      ok := *;
      failures := failures + if ok then 0 else 1;
      names := [];
      var left := nodeImages.Keys;
      while left != {}
        invariant left <= nodeImages.Keys
        invariant Enumerates(names, nodeImages.Keys - left)
      {
        var n :| n in left;
        names := names + [n];
        left := left - {n};
      }
    }
  }

  ghost predicate Enumerates(names: seq<string>, all: set<string>) {
    && (forall n :: n in names <==> n in all)
    && (forall i, j :: 0 <= i < j < |names| ==> names[i] != names[j])
  }
}
