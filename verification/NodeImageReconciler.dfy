/** One reconciliation of an OpenStackNodeImageRelease: look the image up, create and import it if there
    is none, else follow its status. */
module NodeImageReconciler {
  import opened Glance
  import opened Cluster

  // ---------- what the remote services answer ----------

  datatype CloudAnswer = CloudFound | CloudSecretMissing | CloudUnusable
  datatype Listing = ListFailed | Listed(ids: seq<ImageId>)
  datatype Creation = CreateRefused | Created(id: ImageId)
  datatype Fetch = FetchFailed | Fetched(status: ImageStatus)

  /** One answer for each remote call a reconciliation may make. */
  datatype Answers = Answers(cloud: CloudAnswer, authenticated: bool, service: bool, listing: Listing,
                             creation: Creation, importAccepted: bool, fetch: Fetch)

  datatype Call = ListImages(opts: CreateOpts) | CreateImage(opts: CreateOpts)
                | ImportImage(id: ImageId, url: string) | GetImage(id: ImageId)

  // ---------- the ways out ----------

  /** The exits of Reconcile after the object has been read. */
  datatype Exit = SecretMissing | NoCloud | NotAuthenticated | NoService
                | ListError | TooManyFound
                | NotCreated | NotImported(id: ImageId) | ImportBegun(id: ImageId)
                | GetError(id: ImageId) | TimedOut(id: ImageId)
                | SawActive(id: ImageId) | SawBroken(id: ImageId) | SawPending(id: ImageId) | SawUnknown(id: ImageId)

  predicate Overdue(importStarted: Condition, now: nat, timeout: int) {
    timeout > 0 && importStarted.IsTrue() && now - importStarted.since > timeout * 60
  }

  function Verdict(id: ImageId, status: ImageStatus): Exit {
    match status
    case Active => SawActive(id)
    case Deactivated | Killed => SawBroken(id)
    case Queued | Saving | Deleted | PendingDelete | Importing => SawPending(id)
    case Uploading | Other(_) => SawUnknown(id)
  }

  function ExitOf(importStarted: Condition, a: Answers, now: nat, timeout: int): Exit {
    if a.cloud == CloudSecretMissing then SecretMissing
    else if a.cloud == CloudUnusable then NoCloud
    else if !a.authenticated then NotAuthenticated
    else if !a.service then NoService
    else if a.listing.ListFailed? then ListError
    else if |a.listing.ids| > 1 then TooManyFound
    else if |a.listing.ids| == 0 then
      match a.creation
      case CreateRefused => NotCreated
      case Created(id) => if a.importAccepted then ImportBegun(id) else NotImported(id)
    else
      var id := a.listing.ids[0];
      match a.fetch
      case FetchFailed => GetError(id)
      case Fetched(status) =>
        if status != Active && Overdue(importStarted, now, timeout) then TimedOut(id) else Verdict(id, status)
  }

  // ---------- what each way out does to the object ----------

  /** The exits before the image service was reached. */
  predicate Early(e: Exit) {
    e.SecretMissing? || e.NoCloud? || e.NotAuthenticated? || e.NoService?
  }

  predicate Creating(e: Exit) {
    e.NotCreated? || e.NotImported? || e.ImportBegun?
  }

  predicate Refusing(e: Exit) {
    Creating(e) || e.SawBroken? || e.SawPending? || e.SawUnknown?
  }

  function ReadyAfter(ready: bool, e: Exit): bool {
    if e.SawActive? then true else if Refusing(e) then false else ready
  }

  function ImageReadyAfter(c: Condition, e: Exit, now: nat): Condition {
    if Early(e) then c
    else if e.SawActive? then MarkTrue(c, now)
    else if e.TimedOut? then MarkFalse(c, ImportTimeOut, now)
    else if e.SawPending? then MarkFalse(c, NotImportedYet, now)
    else if e.ImportBegun? then MarkFalse(c, NotCreatedYet, now)
    else if Creating(e) then MarkFalse(MarkFalse(c, NotCreatedYet, now), IssueWithImage, now)
    else MarkFalse(c, IssueWithImage, now)
  }

  function ImportStartedAfter(c: Condition, e: Exit, now: nat): Condition {
    if !Creating(e) then c
    else if e.ImportBegun? then MarkTrue(MarkFalse(c, ImportNotStarted, now), now)
    else MarkFalse(c, ImportNotStarted, now)
  }

  function After(s: Status, e: Exit, now: nat): Status {
    Status(ReadyAfter(s.ready, e),
           if e.SecretMissing? then MarkFalse(s.cloud, SecretNotFound, now)
           else if e.NoCloud? then MarkFalse(s.cloud, CloudNotSet, now)
           else MarkTrue(s.cloud, now),
           if e.NoService? then MarkFalse(s.service, ImageServiceClientNotSet, now)
           else if Early(e) then s.service
           else MarkTrue(s.service, now),
           ImageReadyAfter(s.imageReady, e, now),
           ImportStartedAfter(s.importStarted, e, now))
  }

  function ResultOf(e: Exit): Return {
    match e
    case SecretMissing => RequeueAfter(60)
    case NoCloud => Failed
    case ImportBegun(_) => Requeue
    case SawPending(_) => RequeueAfter(30)
    case _ => Done
  }

  function CallsOf(e: Exit, spec: Spec): seq<Call> {
    match e
    case SecretMissing | NoCloud | NotAuthenticated | NoService => []
    case ListError | TooManyFound => [ListImages(spec.opts)]
    case NotCreated => [ListImages(spec.opts), CreateImage(spec.opts)]
    case NotImported(id) => [ListImages(spec.opts), CreateImage(spec.opts), ImportImage(id, spec.url)]
    case ImportBegun(id) => [ListImages(spec.opts), CreateImage(spec.opts), ImportImage(id, spec.url)]
    case GetError(id) => [ListImages(spec.opts), GetImage(id)]
    case TimedOut(id) => [ListImages(spec.opts), GetImage(id)]
    case SawActive(id) => [ListImages(spec.opts), GetImage(id)]
    case SawBroken(id) => [ListImages(spec.opts), GetImage(id)]
    case SawPending(id) => [ListImages(spec.opts), GetImage(id)]
    case SawUnknown(id) => [ListImages(spec.opts), GetImage(id)]
  }

  // ---------- the reconciler ----------

  /** The image service client; it answers as scripted and records what it is asked. */
  class ImageService {
    const answers: Answers
    var calls: seq<Call>

    constructor (answers: Answers)
      ensures this.answers == answers && calls == []
    {
      this.answers, calls := answers, [];
    }

    method List(opts: CreateOpts) returns (r: Listing)
      modifies this
      ensures r == answers.listing && calls == old(calls) + [ListImages(opts)]
    {
      calls := calls + [ListImages(opts)];
      r := answers.listing;
    }

    method Create(opts: CreateOpts) returns (r: Creation)
      modifies this
      ensures r == answers.creation && calls == old(calls) + [CreateImage(opts)]
    {
      calls := calls + [CreateImage(opts)];
      r := answers.creation;
    }

    method Import(id: ImageId, url: string) returns (ok: bool)
      modifies this
      ensures ok == answers.importAccepted && calls == old(calls) + [ImportImage(id, url)]
    {
      calls := calls + [ImportImage(id, url)];
      ok := answers.importAccepted;
    }

    method Get(id: ImageId) returns (r: Fetch)
      modifies this
      ensures r == answers.fetch && calls == old(calls) + [GetImage(id)]
    {
      calls := calls + [GetImage(id)];
      r := answers.fetch;
    }
  }

  datatype Search = Failing | Nothing | One(id: ImageId) | Many

  /** The reconciler's copy of the object, which it changes step by step. */
  class NodeImageReconcile {
    const timeout: int
    const spec: Spec
    var ready: bool
    var cloud: Condition
    var service: Condition
    var imageReady: Condition
    var importStarted: Condition

    constructor (o: NodeImageRelease, timeout: int)
      ensures spec == o.spec && this.timeout == timeout && Contents() == o.status
    {
      this.timeout, spec, ready := timeout, o.spec, o.status.ready;
      cloud, service := o.status.cloud, o.status.service;
      imageReady, importStarted := o.status.imageReady, o.status.importStarted;
    }

    function Contents(): Status
      reads this
    {
      Status(ready, cloud, service, imageReady, importStarted)
    }

    method GetImageID(glance: ImageService) returns (r: Search)
      modifies glance
      ensures glance.calls == old(glance.calls) + [ListImages(spec.opts)]
      ensures match glance.answers.listing
              case ListFailed => r == Failing
              case Listed(ids) => if |ids| == 0 then r == Nothing else if |ids| == 1 then r == One(ids[0]) else r == Many
    {
      var listing := glance.List(spec.opts);
      match listing {
        case ListFailed => r := Failing;
        case Listed(ids) =>
          if |ids| == 0 {
            r := Nothing;
          } else if |ids| == 1 {
            r := One(ids[0]);
          } else {
            r := Many;
          }
      }
    }

    /** The cloud configuration, the authentication and the image service client. */
    method Connect(a: Answers, now: nat) returns (connected: bool, result: Return)
      modifies this
      ensures var e := ExitOf(old(importStarted), a, now, timeout);
              && connected == !Early(e)
              && Contents() == old(Contents()).(cloud := After(old(Contents()), e, now).cloud,
                                                service := After(old(Contents()), e, now).service)
              && (Early(e) ==> result == ResultOf(e))
    {
      result := Done;
      if a.cloud == CloudSecretMissing {
        cloud := MarkFalse(cloud, SecretNotFound, now);
        return false, RequeueAfter(60);
      }
      if a.cloud == CloudUnusable {
        cloud := MarkFalse(cloud, CloudNotSet, now);
        return false, Failed;
      }
      cloud := MarkTrue(cloud, now);
      if !a.authenticated {
        return false, Done;
      }
      if !a.service {
        service := MarkFalse(service, ImageServiceClientNotSet, now);
        return false, Done;
      }
      service := MarkTrue(service, now);
      connected := true;
    }

    /** No image yet: create it and start the import. */
    method CreateAndImport(glance: ImageService, now: nat) returns (result: Return)
      modifies this, glance
      ensures var e := match glance.answers.creation
                       case CreateRefused => NotCreated
                       case Created(id) => if glance.answers.importAccepted then ImportBegun(id) else NotImported(id);
              && Contents() == old(Contents()).(ready := false,
                                                imageReady := ImageReadyAfter(old(imageReady), e, now),
                                                importStarted := ImportStartedAfter(old(importStarted), e, now))
              && result == ResultOf(e)
              && glance.calls == old(glance.calls) + CallsOf(e, spec)[1..]
      ensures glance.answers.creation.Created? && glance.answers.importAccepted ==>
                importStarted == Marked(true, NoReason, now) && result == Requeue
      ensures !(glance.answers.creation.Created? && glance.answers.importAccepted) ==>
                importStarted.Marked? && !importStarted.ok && result == Done
    {
      imageReady := MarkFalse(imageReady, NotCreatedYet, now);
      importStarted := MarkFalse(importStarted, ImportNotStarted, now);
      ready := false;
      var creation := glance.Create(spec.opts);
      if creation.CreateRefused? {
        imageReady := MarkFalse(imageReady, IssueWithImage, now);
        return Done;
      }
      var accepted := glance.Import(creation.id, spec.url);
      if !accepted {
        imageReady := MarkFalse(imageReady, IssueWithImage, now);
        return Done;
      }
      importStarted := MarkTrue(importStarted, now);
      result := Requeue;
    }

    /** There is an image: follow its status. */
    method Follow(glance: ImageService, id: ImageId, now: nat) returns (result: Return)
      modifies this, glance
      ensures var e := match glance.answers.fetch
                       case FetchFailed => GetError(id)
                       case Fetched(status) =>
                         if status != Active && Overdue(old(importStarted), now, timeout) then TimedOut(id)
                         else Verdict(id, status);
              && Contents() == old(Contents()).(ready := ReadyAfter(old(ready), e),
                                                imageReady := ImageReadyAfter(old(imageReady), e, now))
              && result == ResultOf(e)
              && glance.calls == old(glance.calls) + [GetImage(id)]
    {
      var fetched := glance.Get(id);
      if fetched.FetchFailed? {
        imageReady := MarkFalse(imageReady, IssueWithImage, now);
        return Done;
      }
      var status := fetched.status;
      if timeout > 0 && importStarted.IsTrue() {
        var elapsed := now - importStarted.since;
        if status != Active && elapsed > timeout * 60 {
          imageReady := MarkFalse(imageReady, ImportTimeOut, now);
          return Done;
        }
      }
      match status {
        case Active =>
          imageReady := MarkTrue(imageReady, now);
          ready := true;
        case Deactivated | Killed =>
          imageReady := MarkFalse(imageReady, IssueWithImage, now);
          ready := false;
        case Queued | Saving | Deleted | PendingDelete | Importing =>
          imageReady := MarkFalse(imageReady, NotImportedYet, now);
          ready := false;
          return RequeueAfter(30);
        case Uploading | Other(_) =>
          imageReady := MarkFalse(imageReady, IssueWithImage, now);
          ready := false;
      }
      result := Done;
    }

    /** The body of Reconcile between reading the object and the deferred patch. */
    method Run(glance: ImageService, now: nat) returns (result: Return)
      modifies this, glance
      ensures var e := ExitOf(old(importStarted), glance.answers, now, timeout);
              && Contents() == After(old(Contents()), e, now)
              && result == ResultOf(e)
              && glance.calls == old(glance.calls) + CallsOf(e, spec)
    {
      var connected;
      connected, result := Connect(glance.answers, now);
      if !connected {
        return;
      }
      var search := GetImageID(glance);
      match search {
        case Failing | Many =>
          imageReady := MarkFalse(imageReady, IssueWithImage, now);
          result := Done;
        case Nothing =>
          result := CreateAndImport(glance, now);
        case One(id) =>
          result := Follow(glance, id, now);
      }
    }
  }

  /** Reconcile: read the object, run, and patch the status at the end whatever happened in between.
      Either nothing is stored, or exactly the status its way out gives. */
  method Reconcile(api: ApiServer, glance: ImageService, name: string, now: nat, timeout: int) returns (result: Return)
    requires glance.calls == []
    modifies api, glance
    ensures var s := old(api.Contents());
            if name in s.nodeImages then
              var o := s.nodeImages[name];
              var e := ExitOf(o.status.importStarted, glance.answers, now, timeout);
              var stored := PatchNodeImage(s, name, After(o.status, e, now));
              && (result == Failed || (api.Contents() == stored && result == ResultOf(e)))
              && (api.Contents() == s || api.Contents() == stored)
              && (api.failures == old(api.failures) ==> api.Contents() == stored && result == ResultOf(e))
              && (glance.calls == CallsOf(e, o.spec) || (result == Failed && glance.calls == [] && api.Contents() == s))
            else
              api.Contents() == s && glance.calls == [] && result == if api.failures == old(api.failures) then Done else Failed
  {
    var reply := api.GetNodeImage(name);
    if reply.NotFound? {
      return Done;
    }
    if reply.Failure? {
      return Failed;
    }
    var run := new NodeImageReconcile(reply.value, timeout);
    result := run.Run(glance, now);
    assert api.failures == old(api.failures);
    var patched := api.PatchNodeImageStatus(name, run.Contents());
    if !patched {
      result := Failed;
    }
  }
}
