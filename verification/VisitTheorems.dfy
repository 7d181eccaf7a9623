/** What a stored reconciliation of an OpenStackNodeImageRelease leaves, said by the answers it got: its conditions, its
    flag, when it is called again, and from when an import is timed. */
module VisitTheorems {
  import opened Glance
  import opened Cluster
  import opened Protocol
  import opened Invariants
  import opened ImportTheorems
  import N = NodeImageReconciler

  // ---------- the answers ----------

  predicate Connects(a: N.Answers) {
    a.cloud == N.CloudFound && a.authenticated && a.service
  }

  /** Nothing was found, and an image was created and its import accepted. */
  predicate BeginsImport(a: N.Answers) {
    Connects(a) && a.listing == N.Listed([]) && a.creation.Created? && a.importAccepted
  }

  predicate SeesNothing(a: N.Answers) {
    Connects(a) && a.listing == N.Listed([])
  }

  /** The image was found and its status fetched, in time or active. */
  predicate Sees(a: N.Answers, start: Condition, now: nat, timeout: int) {
    && Connects(a) && a.listing.Listed? && |a.listing.ids| == 1 && a.fetch.Fetched?
    && (a.fetch.status == Active || timeout <= 0 || !start.IsTrue() || now - start.since <= timeout * 60)
  }

  predicate Waits(status: ImageStatus) {
    status in {Queued, Saving, Importing, Deleted, PendingDelete}
  }

  function StatusOf(w: World, name: string): Status
    requires name in w.store.nodeImages
  {
    w.store.nodeImages[name].status
  }

  lemma StoredStatus(cfg: Config, w: World, v: Visit)
    requires LegitVisit(w, v) && v.kept
    ensures var w' := ApplyVisit(cfg, w, v);
            && v.name in w'.store.nodeImages
            && StatusOf(w', v.name) == N.After(StatusOf(w, v.name), VisitExit(cfg, w, v), w.now)
  {
  }

  // ---------- the conditions ----------

  /** Which step towards the image service failed can be read off the conditions of the cloud and of the service. */
  lemma ConnectionShows(cfg: Config, w: World, v: Visit)
    requires LegitVisit(w, v) && v.kept
    ensures var s, t, a := StatusOf(w, v.name), StatusOf(ApplyVisit(cfg, w, v), v.name), v.answers;
            && (t.cloud.IsTrue() <==> a.cloud == N.CloudFound)
            && (Shows(t.cloud, SecretNotFound) <==> a.cloud == N.CloudSecretMissing)
            && (Shows(t.cloud, CloudNotSet) <==> a.cloud == N.CloudUnusable)
            && (if a.cloud == N.CloudFound && a.authenticated then
                  (t.service.IsTrue() <==> a.service) && (Shows(t.service, ImageServiceClientNotSet) <==> !a.service)
                else t.service == s.service)
            && (!Connects(a) ==> t.imageReady == s.imageReady && t.importStarted == s.importStarted && t.ready == s.ready)
  {
    StoredStatus(cfg, w, v);
  }

  lemma ImageCondition(before: Condition, start: Condition, a: N.Answers, now: nat, timeout: int)
    requires Connects(a)
    ensures var c := N.ImageReadyAfter(before, N.ExitOf(start, a, now, timeout), now);
            && (c.IsTrue() <==> Sees(a, start, now, timeout) && a.fetch.status == Active)
            && (Shows(c, NotImportedYet) <==> Sees(a, start, now, timeout) && Waits(a.fetch.status))
            && (Shows(c, NotCreatedYet) <==> BeginsImport(a))
            && (Shows(c, ImportTimeOut) <==>
                  a.listing.Listed? && |a.listing.ids| == 1 && a.fetch.Fetched? && !Sees(a, start, now, timeout))
            && (c.IsTrue() || Shows(c, NotImportedYet) || Shows(c, NotCreatedYet) || Shows(c, ImportTimeOut)
                || Shows(c, IssueWithImage))
  {
    if a.listing.Listed? && |a.listing.ids| == 0 {
      assert a.listing == N.Listed([]);
    }
  }

  /** And what the image service had to say off the condition of the image. */
  lemma ImageShows(cfg: Config, w: World, v: Visit)
    requires LegitVisit(w, v) && v.kept && Connects(v.answers)
    ensures var c, a, start := StatusOf(ApplyVisit(cfg, w, v), v.name).imageReady, v.answers, StartOf(w, v.name);
            && (c.IsTrue() <==> Sees(a, start, w.now, cfg.timeout) && a.fetch.status == Active)
            && (Shows(c, NotImportedYet) <==> Sees(a, start, w.now, cfg.timeout) && Waits(a.fetch.status))
            && (Shows(c, NotCreatedYet) <==> BeginsImport(a))
            && (Shows(c, ImportTimeOut) <==>
                  a.listing.Listed? && |a.listing.ids| == 1 && a.fetch.Fetched? && !Sees(a, start, w.now, cfg.timeout))
            && (c.IsTrue() || Shows(c, NotImportedYet) || Shows(c, NotCreatedYet) || Shows(c, ImportTimeOut)
                || Shows(c, IssueWithImage))
  {
    StoredStatus(cfg, w, v);
    ImageCondition(StatusOf(w, v.name).imageReady, StartOf(w, v.name), v.answers, w.now, cfg.timeout);
  }

  /** The flag is set by an active image, taken back where nothing was found or the status is another, and else left. */
  lemma FlagFollowsImage(cfg: Config, w: World, v: Visit)
    requires LegitVisit(w, v) && v.kept
    ensures var s, t, a := StatusOf(w, v.name), StatusOf(ApplyVisit(cfg, w, v), v.name), v.answers;
            t.ready <==> if SeesNothing(a) then false
                         else if Sees(a, s.importStarted, w.now, cfg.timeout) then a.fetch.status == Active
                         else s.ready
  {
    StoredStatus(cfg, w, v);
  }

  // ---------- being called again ----------

  /** What is returned: at once after an import has begun, after 30 seconds while the image is on its way, after 60
      without the secret, with an error without a usable cloud, and else not at all. */
  lemma CalledAgain(cfg: Config, w: World, v: Visit)
    requires LegitVisit(w, v)
    ensures var r, a := N.ResultOf(VisitExit(cfg, w, v)), v.answers;
            && (r == Requeue <==> BeginsImport(a))
            && (r == RequeueAfter(30) <==> Sees(a, StartOf(w, v.name), w.now, cfg.timeout) && Waits(a.fetch.status))
            && (r == RequeueAfter(60) <==> a.cloud == N.CloudSecretMissing)
            && (r == Failed <==> a.cloud == N.CloudUnusable)
            && (r == Done || r == Requeue || r == RequeueAfter(30) || r == RequeueAfter(60) || r == Failed)
  {
  }

  /** So an object whose image is being imported, or waits for it, is called again; it is then never ready. */
  lemma WaitingIsCalledAgain(cfg: Config, w: World, v: Visit)
    requires LegitVisit(w, v) && v.kept && Connects(v.answers)
    ensures var r, t := N.ResultOf(VisitExit(cfg, w, v)), StatusOf(ApplyVisit(cfg, w, v), v.name);
            && (r != Done <==> Shows(t.imageReady, NotCreatedYet) || Shows(t.imageReady, NotImportedYet))
            && (r != Done ==> !t.ready)
  {
    ImageShows(cfg, w, v);
    FlagFollowsImage(cfg, w, v);
    CalledAgain(cfg, w, v);
  }

  // ---------- what the image service is asked ----------

  /** The calls, one by one: which there are, with which arguments, at which place. */
  lemma AsksInOrder(cfg: Config, w: World, v: Visit)
    requires LegitVisit(w, v)
    ensures var spec, a := w.store.nodeImages[v.name].spec, v.answers;
            var calls := N.CallsOf(VisitExit(cfg, w, v), spec);
            && (N.ListImages(spec.opts) in calls <==> Connects(a))
            && (N.CreateImage(spec.opts) in calls <==> SeesNothing(a))
            && (forall id, url :: N.ImportImage(id, url) in calls <==>
                  SeesNothing(a) && a.creation == N.Created(id) && url == spec.url)
            && (forall id :: N.GetImage(id) in calls <==> Connects(a) && a.listing == N.Listed([id]))
            && |calls| == (if !Connects(a) then 0 else if a.listing == N.Listed([]) then (if a.creation.Created? then 3 else 2)
                           else if a.listing.Listed? && |a.listing.ids| == 1 then 2 else 1)
            && (Connects(a) ==> calls[0] == N.ListImages(spec.opts))
            && (SeesNothing(a) ==> calls[1] == N.CreateImage(spec.opts))
  {
    var a := v.answers;
    if a.listing.Listed? && |a.listing.ids| == 1 {
      assert a.listing.ids == [a.listing.ids[0]];
    }
  }

  // ---------- from when an import is timed ----------

  lemma StartCondition(c: Condition, a: N.Answers, now: nat, timeout: int)
    ensures var t := N.ImportStartedAfter(c, N.ExitOf(c, a, now, timeout), now);
            && (BeginsImport(a) ==> t == Marked(true, NoReason, now))
            && (SeesNothing(a) && !BeginsImport(a) ==> Shows(t, ImportNotStarted))
            && (!SeesNothing(a) ==> t == c)
  {
    if a.listing.Listed? && |a.listing.ids| == 0 {
      assert a.listing == N.Listed([]);
    }
  }

  /** An accepted import is timed from the reconciliation that began it, whatever was recorded before; one that was
      refused is not timed; and nothing else touches the record. */
  lemma StartIsNow(cfg: Config, w: World, v: Visit)
    requires LegitVisit(w, v) && v.kept
    ensures var w' := ApplyVisit(cfg, w, v);
            && (BeginsImport(v.answers) ==> StartOf(w', v.name) == Marked(true, NoReason, w.now))
            && (SeesNothing(v.answers) && !BeginsImport(v.answers) ==> Shows(StartOf(w', v.name), ImportNotStarted))
            && (!SeesNothing(v.answers) ==> StartOf(w', v.name) == StartOf(w, v.name))
  {
    StoredStatus(cfg, w, v);
    StartCondition(StartOf(w, v.name), v.answers, w.now, cfg.timeout);
  }

  /** After it, and any run without another creating reconciliation of the object, a status other than active is a timeout
      exactly when more than the timeout has passed since that reconciliation. */
  lemma TimesOutAfterImportIff(cfg: Config, w: World, v: Visit, es: seq<Event>, later: Visit, status: ImageStatus)
    requires WellFormed(cfg) && Inv(cfg, w) && LegitVisit(w, v) && v.kept && BeginsImport(v.answers)
    requires Possible(cfg, ApplyVisit(cfg, w, v), es)
    requires FollowedBy(ApplyVisit(cfg, w, v), Execute(cfg, ApplyVisit(cfg, w, v), es), v.name)
    requires LegitVisit(Execute(cfg, ApplyVisit(cfg, w, v), es), later) && later.name == v.name
    requires Reads(later, status) && status != Active
    ensures var w' := Execute(cfg, ApplyVisit(cfg, w, v), es);
            VisitExit(cfg, w', later).TimedOut? <==> cfg.timeout > 0 && w'.now - w.now > cfg.timeout * 60
  {
    StartIsNow(cfg, w, v);
    StepKeepsInv(cfg, w, NodeVisit(v));
    StartAfterVisit(cfg, w, v);
    StartAfterRun(cfg, ApplyVisit(cfg, w, v), es, v.name);
    TimesOutIff(cfg, Execute(cfg, ApplyVisit(cfg, w, v), es), later);
  }
}
