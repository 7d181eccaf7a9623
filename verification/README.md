# A verified model of the Cluster Stack Provider OpenStack

The Cluster Stack Provider OpenStack keeps node images of cluster stacks in OpenStack. This project models its
hard parts in Dafny and proves what they promise. `dafny verify dfyconfig.toml` checks all of it.

## What is modelled

**Two controllers, one protocol.** An OpenStackClusterStackRelease (a *release*) downloads its assets, makes sure
that each of its node images has an OpenStackNodeImageRelease (an *object*), shared with other releases, that names
it as an owner, and goes Ready when all objects it owns are. An OpenStackNodeImageRelease looks its image up in the
image service Glance, creates and imports it if there is none, and otherwise follows its status.

| module | content |
|---|---|
| `Naming`, `Owners` | names of objects, owner references, listing what is owned |
| `Glance`, `Cluster` | images and lookups; objects, conditions, resource versions, the API server as a class |
| `NodeImageReconciler` | the reconciliation of an object, step by step on the reconciler's copy, against a specification by its ways out |
| `StackReconciler`, `StackProperties` | the reconciliation of a release; what its pass over the node images does; a second one is idle |
| `Protocol`, `Invariants` | both controllers, the API server, Glance and other users as one state machine; what every step keeps |
| `VisitTheorems` | what a stored reconciliation of an object leaves and returns, by the answers it got |
| `ImageTheorems`, `ImportTheorems`, `ReadinessTheorems`, `OwnershipTheorems`, `FailedImports` | theorems over every run |
| `Refinement` | the call-by-call reconciliation of the protocol, left alone, is the one of `StackReconciler` |
| `Measures`, `Convergence` | how far a release is from Ready, and that no event raises it |
| `FaultlessRuns`, `Progress` | runs in which no call fails; some of them make a release Ready |
| `Unrest`, `FairRuns`, `FairExample` | objects and images come to rest; in every fair faultless run a release becomes Ready and stays so; such runs exist |

In `Protocol` any number of releases are in the middle of a reconciliation at a time, with Get, Update and Create as
separate steps; the reconciliation of an object is one step in the course of which images may change. Any call and
any patch may fail, a write, create or import that fails may have happened all the same, time passes, images change
status or disappear, and users add, delete and edit objects.

**The licence-header tool.** `Text`, `Boilerplate` and the four modules named after it model the check
`file_content_passes`, the repair `ensure_boilerplate_file` and the regular expressions they use, as scanners.

**The release-notes tool.** `ReleaseNotes`, `ReleaseNotesTheorems` and `ReleaseNotesPrinting` model the parsing, the
sorting and the printing loop, down to the words in commit messages.

**Deep copies.** `DeepCopy` models the generated copy functions of an object and of a list of objects on the heap,
with nil pointers, slices and maps.

## What is assumed of the environment

- There is one namespace and one OpenStack project, and only these controllers create images in it.
- The API server keeps names unique, refuses an Update whose resource version is not the current one, and does not
  write the status subresource by an Update. A write that changes nothing keeps the resource version. Get and List
  read the current state; with a stale cache the list at the end of a release's reconciliation could miss an object
  just created.
- The deferred patch stores all of the status or nothing, and only while the release that was read is still there.
- Per release at most one reconciliation is in flight at a time; those of different releases interleave with each other
  and with the objects. Reconciliations of objects do not overlap, not even of different objects: the controller has one
  worker (internal/controller/openstacknodeimagerelease_controller.go:428-432). With more, two lookups could both find
  nothing and both be followed by a create. Within one, a status patch does not touch owners and an Update does not
  touch the status, so that the reconciliation of an object is one step.
- `EnsureOwnerRef` replaces a reference with the same group, kind and name, and else appends. A condition's transition
  time moves only when its state changes. The name of a release is its release tag. In `Protocol` the API version of
  a release can be parsed; `Owners` and `StackProperties` say what happens otherwise.
- Glance lists an image exactly if it passes the filter and is not hidden, does not invent images, does not create one
  without a name or under an ID in use, and mints IDs that nobody asks for. The API accepts create options with an
  empty name, and so does the model.
- Create options of an object do not change. The assets of a release are one decoded value per tag.
- Faultless, in `FaultlessRuns`, `Progress`, `Unrest` and `FairRuns`, means: calls are answered and patches stored, a
  write is refused only if the object was written or created since it was read, nobody else adds, deletes or edits
  objects or releases, and an image keeps its status or gets closer to active. A good state has compatible options that
  are not hidden and only images that are active or imported; any reconciliations may be in flight in it. `Progress`
  and the reachable states built in `ReadinessTheorems` and `FairExample` need all options to have a name, as no image
  can be created otherwise; in a fair run that follows from the creates being answered. Fair means:
  reconciliations in flight end, a release is reconciled once and then whenever its last reconciliation asked for it,
  objects are reconciled again and again, and each image becomes active at some time.
  `FailedImports` and `ImageTheorems` show that a refused import, hidden or incompatible options do get in the way.
- Texts are sequences of characters with line-feed line ends; years have four digits, from 2014 on.

## What the code does that its comments do not say

- The comment at internal/controller/openstacknodeimagerelease_controller.go:306 lists `uploading` as a status to wait
  for; the case list at line 303 does not, so the status is taken for unknown.
- Lookup errors, get errors and timeouts leave `Status.Ready` as it was (`FlagOutlivesConditionOnlyByErrors`).
- Images created as hidden are not in the default list, so options without an ID create another image at every
  reconciliation (`HiddenImagesPileUp`).
- After a refused import the empty image is found by every later lookup and nothing imports it again
  (`FailedImportIsFinal`). No release that owns the object becomes Ready while the object is not, and it does not become
  so until the image or the object is removed (`RefusedImportBlocks`, for a Glance that activates only images with data).
- If the patch of the refusal is lost, the object keeps what it recorded before: a Ready flag until a stored
  reconciliation gets the status without timing out (`EmptyVisit`), and a True import start, by which the new image can
  be timed out although its import never began (`TimesOutAfterRefusalIff`, `LostPatchTimesOut`).
- After a timeout, an error of the image service, or a status not waited for, an object is not called again
  (`VisitTheorems.CalledAgain`), so that only the periodic resync sees its image become active; the same holds for a
  release without an assets client (`StackProperties.CalledAgain`).
- A release goes Ready without one of its objects exactly when somebody else, after the release's loop wrote it and before
  its list, left it deleted or without the release among its owners (`ReadinessTracesBack`, `ExceptionIsNeeded`).
- Create options may have an empty name
  (config/crd/bases/infrastructure.clusterstack.x-k8s.io_openstacknodeimagereleases.yaml:110-112). With neither name, ID
  nor tags they make no image, and their lookup lists every image there is (`NamelessMakesNothing`, `WildcardNeedsAll`).
- Names of objects can collide within a stack when dashes move between image name and version
  (`DashesInVersionsCollide`).
- A release whose API version cannot be parsed appends its reference anew at each reconciliation and never recognises
  it (`EnsureIdempotent`, `MatchAgreesWithEnsure`).
- A digit right before YEAR in a reference can break the repair: in 2024 "20YEAR" becomes "202024", whose first date is
  2020 (`DigitsBeforeYearBreakTheRepair`).

## Model

| member | source | states |
|---|---|---|
| `ImageTheorems.UnambiguousIffCompatible` | internal/controller/openstacknodeimagerelease_controller.go:184-240 | for all create options the API accepts, named or not: no reachable state, with any pattern of failing calls, lost answers and lost patches, has a lookup that finds two images, if and only if any two named options whose images share a lookup also find each other's images |
| `ImageTheorems.AmbiguityReachable` | internal/controller/openstacknodeimagerelease_controller.go:375-407 | for every set of options without that property, a run of the two controllers from the empty state to a state with an ambiguous lookup |
| `ImageTheorems.NeverTooMany` | internal/controller/openstacknodeimagerelease_controller.go:399-406 | with compatible options the "too many images" exit cannot be taken from any reachable state |
| `ImageTheorems.WildcardNeedsAll` | internal/controller/openstacknodeimagerelease_controller.go:378-387 | with options of neither ID nor name nor tags, whose lookup lists everything, that condition says that all listed images of the set find each other |
| `ImageTheorems.NamelessMakesNothing` | internal/controller/openstacknodeimagerelease_controller.go:197-209 | a reconciliation of an object whose options have no name makes no image, and in every reachable state all images come from named options |
| `ImageTheorems.SymmetricTransitiveIsCompatible` | internal/controller/openstacknodeimagerelease_controller.go:378-387 | a symmetric and transitive "my image satisfies your lookup" relation is enough |
| `ImageTheorems.OneCopyIffListed` | internal/controller/openstacknodeimagerelease_controller.go:197-240 | in all runs at most one image made from the same options exists at a time, if and only if the options name an ID, or the image is not hidden, or they have no name to make one with |
| `ImageTheorems.HiddenImagesPileUp` | api/v1alpha1/openstacknodeimagerelease_types.go:61-63 | hidden options with a name and without an ID make one more image at each faultless reconciliation: for every n, a run to a state with n copies |
| `Glance.CreateKeepsUnambiguous` | internal/controller/openstacknodeimagerelease_controller.go:197-209 | creating, from named options, only on an empty lookup keeps all lookups unambiguous when options are compatible |
| `Glance.ListingSize` | internal/controller/openstacknodeimagerelease_controller.go:399-406 | an unambiguous lookup is answered by a list of at most one image |
| `Glance.LookupByParts` | internal/controller/openstacknodeimagerelease_controller.go:378-387 | a lookup with an ID is by that alone; one without is by name and tags: by neither it lists every image that is not hidden, and the name and each tag asked for leave exactly the images that have it |
| `Glance.FindsItsOwn` | internal/controller/openstacknodeimagerelease_controller.go:378-387 | the image made for an object is found by it exactly if it is not hidden, and by whoever asks for the name and fewer tags |
| `NodeImageReconciler.Reconcile` | internal/controller/openstacknodeimagerelease_controller.go:78-101 | whatever fails, either nothing is stored or exactly the status that belongs to the way out taken, and the image service was asked exactly the calls of that way out, in order; where no call to the API server fails the status is stored and the result returned, and an object that is gone is left at that |
| `NodeImageReconciler.NodeImageReconcile.Run` | internal/controller/openstacknodeimagerelease_controller.go:103-328 | the stepwise updates of the conditions and of Ready, with all early exits, end in the status, result and call list specified as functions of the old status, the answers, the clock and the timeout |
| `NodeImageReconciler.NodeImageReconcile.Connect` | internal/controller/openstacknodeimagerelease_controller.go:103-182 | the exits before the image service: which conditions they set, that Ready and the image conditions are left alone |
| `NodeImageReconciler.NodeImageReconcile.GetImageID` | internal/controller/openstacknodeimagerelease_controller.go:375-407 | no image, one image and its ID, too many, or an error |
| `NodeImageReconciler.NodeImageReconcile.CreateAndImport` | internal/controller/openstacknodeimagerelease_controller.go:197-240 | create, then import what was created; an accepted import is recorded as started now, whatever was recorded before, a refused one as not started; Ready is false on all its exits |
| `NodeImageReconciler.NodeImageReconcile.Follow` | internal/controller/openstacknodeimagerelease_controller.go:242-327 | get error and timeout leave Ready alone, active sets it, all other statuses clear it; `uploading` counts as unknown |
| `ImportTheorems.ImportsWhatItCreated` | internal/controller/openstacknodeimagerelease_controller.go:197-240 | an import call is always the third call of a reconciliation, right after the create, names the image just created and has the URL of the object |
| `ImportTheorems.ImportsNeverExceedCreates` | internal/controller/openstacknodeimagerelease_controller.go:204-222 | in every reachable state each image ID was imported at most as often as it was created |
| `ImportTheorems.VisitDoesItsCalls` | internal/controller/openstacknodeimagerelease_controller.go:197-240 | the protocol step of an object imports just what the call list of its reconciliation asks for, as often, and creates one image for each create call that was answered or happened all the same |
| `ImportTheorems.OnlyCreatingVisitsImport` | internal/controller/openstacknodeimagerelease_controller.go:197-240 | a reconciliation that does not take the create branch neither creates nor imports |
| `ImportTheorems.RunKeepsImportStart` | internal/controller/openstacknodeimagerelease_controller.go:199-235 | over every run without a stored create-branch reconciliation of the object, its recorded import start does not change, whatever else happens |
| `ImportTheorems.TimesOutIff` | internal/controller/openstacknodeimagerelease_controller.go:256-278 | a timeout is reported exactly when the status read is not active, the timeout is positive, the import start is True and strictly more than that many minutes old |
| `ImportTheorems.TimeoutsRepeat` | internal/controller/openstacknodeimagerelease_controller.go:256-278 | after a timeout every later reconciliation that reads a status other than active, at the end of any run that leaves the import start alone, times out again |
| `ImportTheorems.ActiveAlwaysCounts` | internal/controller/openstacknodeimagerelease_controller.go:265-286 | reading active sets the object ready, overdue or not |
| `ImportTheorems.NoTimeoutWithoutStart` | internal/controller/openstacknodeimagerelease_controller.go:257-257 | without a started import no reconciliation times out, whatever it reads |
| `ImportTheorems.FailedImportIsFinal` | internal/controller/openstacknodeimagerelease_controller.go:222-240 | after a refused import, whether its patch was stored or lost, and any run in which the image stays found, no reconciliation of the object creates or imports |
| `ImportTheorems.TimesOutAfterRefusalIff` | internal/controller/openstacknodeimagerelease_controller.go:256-278 | after a refused import and any run in which the image stays found, a reconciliation that reads a status other than active times out if and only if the patch of the refusal was lost, the start recorded before it is True, the timeout is positive and the start is overdue |
| `ImportTheorems.LostPatchTimesOut` | internal/controller/openstacknodeimagerelease_controller.go:256-278 | this does happen, for all listed options with a name and every positive timeout: a reachable state in which an import is refused, its patch is lost, and the next reconciliation times out the image just created |
| `ImportTheorems.MatchedRun` | internal/controller/openstacknodeimagerelease_controller.go:197-240 | while the image of an object stays found, over every run nothing touches the import start of the object |
| `VisitTheorems.StartIsNow` | internal/controller/openstacknodeimagerelease_controller.go:197-235 | a stored reconciliation that found nothing and whose create and import were accepted records the import as started at its own time, whatever was recorded before; one whose create or import was refused records it as not started; any other leaves the record |
| `VisitTheorems.TimesOutAfterImportIff` | internal/controller/openstacknodeimagerelease_controller.go:256-278 | after an accepted import and any run without another creating reconciliation of the object, one that reads a status other than active times out if and only if the timeout is positive and more than that many minutes have passed since the import was accepted |
| `VisitTheorems.ConnectionShows` | internal/controller/openstacknodeimagerelease_controller.go:103-182 | which step towards the image service failed can be read off the stored conditions of the cloud and of the service, in both directions; the image conditions and Ready are then as before |
| `VisitTheorems.ImageShows` | internal/controller/openstacknodeimagerelease_controller.go:184-325 | the stored image condition is True exactly if an active image was read, and its reason tells whether an image is on its way (queued, saving, importing, deleted, pending delete), has just been created, timed out, or has an issue |
| `VisitTheorems.FlagFollowsImage` | internal/controller/openstacknodeimagerelease_controller.go:184-325 | Ready is set by an active image, taken back if nothing was found or another status was read in time, and else left |
| `VisitTheorems.CalledAgain` | internal/controller/openstacknodeimagerelease_controller.go:103-327 | what is returned, by the answers: called again at once exactly after an accepted import, after 30 seconds exactly while the image is on its way, after 60 exactly without the secret, with an error exactly without a usable cloud, else not at all |
| `VisitTheorems.WaitingIsCalledAgain` | internal/controller/openstacknodeimagerelease_controller.go:235-311 | of the reconciliations that reach the image service exactly those are called again that leave the image just created or on its way; the object is then not ready |
| `VisitTheorems.AsksInOrder` | internal/controller/openstacknodeimagerelease_controller.go:184-246 | which calls are made, with which arguments and where: one list for the own options first, a create exactly if nothing was found, an import of what was created from the own URL, a get exactly of the one image found |
| `FailedImports.RefusedImportLeavesEmpty` | internal/controller/openstacknodeimagerelease_controller.go:222-233 | a refused import that did not happen leaves an image without data that the lookup of the object finds, and Ready stays set exactly if it was set and the patch was lost |
| `FailedImports.EmptyVisit` | internal/controller/openstacknodeimagerelease_controller.go:242-327 | a reconciliation that finds only such an image neither creates nor sees it active, and takes Ready back exactly when it gets the status and does not time out |
| `FailedImports.RunKeepsEmpty` | internal/controller/openstacknodeimagerelease_controller.go:184-327 | with compatible options, over every run in which nobody removes the image or the object and Glance activates only images with data, the empty image stays, and the object is ready at the end exactly if it was and no stored reconciliation took that back |
| `FailedImports.RefusedImportBlocks` | internal/controller/openstackclusterstackrelease_controller.go:196-209 | so after a refused import, stored or lost, the object is ready at the end of such a run exactly if it was before, the patch was lost and no stored reconciliation took the flag back since; and while it is not, every release that owns it is judged not ready |
| `StackReconciler.StackReconciler.Reconcile` | internal/controller/openstackclusterstackrelease_controller.go:80-103 | for each way out, what must have been met, what became of the directory and of every object; the release is stored with the status of that way out and the result is its requeue delay or error, or a call failed. Where none fails and the loop is reached, the result is to be called again after 30 seconds exactly if not all that is owned is ready, and Ready says the same; not to be called again is returned only for a ready release or for want of an assets client |
| `StackReconciler.StackReconciler.Run` | internal/controller/openstackclusterstackrelease_controller.go:105-217 | every way out with what it takes to get there and its outcome: a bad tag or unreadable assets change no object, a failed write (only where a call failed) leaves exactly the items before it (and possibly its own) ensured, ready exactly if something is owned and all owned is ready; the stepwise updates of conditions and Ready end in the status specified for the way out |
| `StackReconciler.StackReconciler.Conclude` | internal/controller/openstackclusterstackrelease_controller.go:186-216 | Ready and the node-images condition are set together, to the same value; 30 seconds if not ready, done if ready |
| `StackReconciler.StackReconciler.FetchAssets` | internal/controller/openstackclusterstackrelease_controller.go:108-153 | assets present and nothing touched, or the one of four early exits that the answers give, with its conditions and result; a failed download leaves the directory as it was |
| `StackReconciler.StackReconciler.Download` | internal/controller/openstackclusterstackrelease_controller.go:284-294 | on success the assets are in the directory, on failure nothing of the release is, its removal taken to succeed |
| `StackReconciler.StackReconciler.CreateOrUpdate` | internal/controller/openstackclusterstackrelease_controller.go:219-260 | adds the owner to an existing object keeping its spec and status, or creates it; on an error the object is untouched or the write happened and only its answer was lost |
| `StackReconciler.StackReconciler.EnsureNodeImages` | internal/controller/openstackclusterstackrelease_controller.go:163-179 | the loop ensures all items in order, or stops with a prefix of them ensured |
| `StackReconciler.StackReconciler.Judge` | internal/controller/openstackclusterstackrelease_controller.go:181-214 | ready if and only if the release owns an object and all objects it owns are ready |
| `StackProperties.ItemsAreNamed` | internal/controller/openstackclusterstackrelease_controller.go:163-179 | items exist unless there are images and a bad tag; item i carries URL and options of image i and the identity of the release, and the segments of its name are the first four of the tag, those of the image name and those of the version |
| `StackProperties.SharedItems` | internal/controller/openstackclusterstackrelease_controller.go:164-174 | two releases whose versions have equally many dashes share an object if and only if they are of one stack and the images agree in name and version |
| `StackProperties.EnsureAllEffect` | internal/controller/openstackclusterstackrelease_controller.go:163-179 | object by object: those that were there keep spec and status, those named by an item gain the owner reference and nothing else, all others are untouched, and the new ones are just the missing items, each as the first item of its name says, not ready |
| `StackProperties.SecondPassIsIdle` | internal/controller/openstackclusterstackrelease_controller.go:219-235 | a second pass changes nothing, not even a resource version, if and only if there are no items or the API version of the release can be parsed |
| `StackProperties.AssetsShow` | internal/controller/openstackclusterstackrelease_controller.go:108-153 | the stored conditions tell whether the assets were there, had an issue or were still to be downloaded, and whether there was a client for them |
| `StackProperties.JudgementShows` | internal/controller/openstackclusterstackrelease_controller.go:181-214 | once what is owned was listed, Ready, the node-images condition and the result all say whether something is owned and all of it is ready: done if so, else again after 30 seconds; before that Ready and the condition are left |
| `StackProperties.CalledAgain` | internal/controller/openstackclusterstackrelease_controller.go:105-217 | over all ways out: at once exactly after a download, after 60 seconds exactly on an issue with the assets or a failed download, an error exactly where a file, the tag, a write or the list failed; a release that is not ready is called again unless there was no assets client |
| `StackProperties.ReconcileIsFixedPoint` | internal/controller/openstackclusterstackrelease_controller.go:155-217 | a second reconciliation with nothing in between takes the same way out (ready, not ready yet, or bad tag) and leaves all objects, the conditions and Ready as the first left them |
| `Owners.GetOwned` | internal/controller/openstackclusterstackrelease_controller.go:262-282 | exactly the listed objects with a matching reference, in list order, once each, each as a new pointer different from all others |
| `Owners.FindMatch` | internal/controller/openstackclusterstackrelease_controller.go:273-279 | the inner loop with break finds whether some reference matches |
| `Owners.OwnedIsExact` | internal/controller/openstackclusterstackrelease_controller.go:262-282 | what is returned is what is owned: nothing missing, nothing foreign |
| `Owners.OwnedInOrder` | internal/controller/openstackclusterstackrelease_controller.go:262-282 | it is listed in the order of the list, once for each time it is there |
| `Owners.MatchAgreesWithEnsure` | internal/controller/openstackclusterstackrelease_controller.go:296-312 | an object recognises its own generated reference if and only if its API version can be parsed, and then it recognises just the references that EnsureOwnerRef replaces, whatever UID or version |
| `Owners.EnsureMakesOwner` | internal/controller/openstackclusterstackrelease_controller.go:227-227 | ensuring a reference makes its object an owner and nobody stops being one |
| `Owners.EnsureReplacesFirst` | internal/controller/openstackclusterstackrelease_controller.go:227-227 | exactly the first reference to the same owner is replaced, in its place; without one the new reference is appended |
| `Owners.OldReferenceIsGone` | internal/controller/openstackclusterstackrelease_controller_test.go:455-472 | where there was one reference to an owner, only the new one is left, whatever its UID |
| `Owners.EnsureKeepsOthers` | internal/controller/openstackclusterstackrelease_controller.go:227-227 | references to other owners stay, and nothing but the new reference comes in |
| `Owners.EnsureIdempotent` | internal/controller/openstackclusterstackrelease_controller.go:227-227 | ensuring twice is ensuring once if and only if the API version can be parsed; otherwise the reference is appended again |
| `Owners.GroupIsBeforeSlash` | internal/controller/openstackclusterstackrelease_controller.go:305-312 | "group/version" is of that group, a bare version of the empty one |
| `Owners.UnparseableIff` | internal/controller/openstackclusterstackrelease_controller.go:305-309 | an API version cannot be parsed exactly if there are two slashes in it |
| `Owners.GroupKindAndNameDecide` | internal/controller/openstackclusterstackrelease_controller.go:305-312 | a reference of version g/v belongs to an object of version h/u, and is replaced by the reference to it, if and only if groups, kinds and names agree, whatever versions and UIDs |
| `Owners.BareVersionsAreOneGroup` | internal/controller/openstackclusterstackrelease_controller.go:305-312 | references of bare versions belong to objects of bare versions, and to objects whose version cannot be parsed, of the same kind and name, and to none of a proper group; references that cannot be parsed belong to nothing |
| `Owners.ReferenceIsRefreshed` | internal/controller/openstackclusterstackrelease_controller.go:296-303 | where there was one reference to an owner, the only one left carries its present UID and API version |
| `OwnershipTheorems.OwnersSurviveRuns` | internal/controller/openstackclusterstackrelease_controller.go:219-260 | an owner of a shared object stays one through every run in which nobody else edits its owners or deletes it, with any number of releases reading, creating, updating, failing and retrying in any order |
| `OwnershipTheorems.ReferenceSurvivesStep` | internal/controller/openstackclusterstackrelease_controller.go:225-231 | in one step a reference is at most replaced by the writer's own reference to the same owner |
| `OwnershipTheorems.WinnersOwnForGood` | internal/controller/openstackclusterstackrelease_controller.go:225-256 | an accepted write makes the release an owner at the end of every such run |
| `OwnershipTheorems.LosersChangeNothing` | internal/controller/openstackclusterstackrelease_controller.go:229-256 | a losing Create or stale Update changes no object, resource version, image or other reconciliation, and ends its own |
| `OwnershipTheorems.AcceptedMeansUndisturbed` | internal/controller/openstackclusterstackrelease_controller.go:222-256 | in every reachable state a write is taken if and only if the name is still free, or the object is still what was read |
| `OwnershipTheorems.FinishersOwn` | internal/controller/openstackclusterstackrelease_controller.go:163-179 | in every reachable state a release that got through its loop owns an object of its own if and only if that is not lost |
| `OwnershipTheorems.LostExactly` | internal/controller/openstackclusterstackrelease_controller.go:219-260 | event by event, which objects are lost to a reconciliation: those that somebody else just deleted, or added or edited so that the release is no owner; and those that were lost and that its own accepted write does not take back now |
| `ReadinessTheorems.ReadinessTracesBack` | internal/controller/openstackclusterstackrelease_controller.go:163-214 | when a reconciliation sets a release ready: the owned list is not empty, each Ready flag of an owned object comes from an earlier stored reconciliation that saw an active image its lookup finds and that no later one took back, and the object of a node image, under its derived name, is among them if and only if it is not lost: not the case that somebody else last deleted it or left it without the release among its owners, with no write of the reconciliation to it since |
| `ReadinessTheorems.ExceptionIsNeeded` | internal/controller/openstackclusterstackrelease_controller.go:181-214 | the exception is needed: for every release with two differently named node images there is a reachable state, its loop through, from which every such deletion or edit of one of them leaves the release going ready without owning that object |
| `ReadinessTheorems.LossGoesUnnoticed` | internal/controller/openstackclusterstackrelease_controller.go:196-214 | wherever a release that owns two objects is about to go ready, losing one of them goes unnoticed |
| `ReadinessTheorems.AboutToBeReady` | internal/controller/openstackclusterstackrelease_controller.go:163-214 | every release with a valid tag and a node image can get there, owning all its objects |
| `ReadinessTheorems.ReadyIsEarned` | internal/controller/openstacknodeimagerelease_controller.go:282-325 | in every reachable state a Ready flag of an OpenStackNodeImageRelease was earned by such a reconciliation |
| `ReadinessTheorems.FlagOutlivesConditionOnlyByErrors` | internal/controller/openstacknodeimagerelease_controller.go:185-325 | in every reachable state the image-ready condition is True exactly if the last stored reconciliation that reached the image service saw an active image; then Ready holds; and Ready without it comes only from a lookup error, a get error or a timeout |
| `ReadinessTheorems.StackFlagIsCondition` | internal/controller/openstackclusterstackrelease_controller.go:186-214 | in every reachable state the release is Ready if and only if its node-images condition is True |
| `Invariants.StepKeepsInv` | internal/controller/openstackclusterstackrelease_controller.go:80-260 | every step of either controller, of the image service and of other users keeps the whole invariant |
| `Invariants.RunKeepsInv` | internal/controller/openstacknodeimagerelease_controller.go:78-328 | so does every run |
| `Invariants.ReachableMeetsInv` | internal/controller/openstacknodeimagerelease_controller.go:78-328 | every state reachable from the empty one meets it |
| `Invariants.MakesOnlyWhatIsMissing` | internal/controller/openstacknodeimagerelease_controller.go:197-204 | a reconciliation makes an image only if its lookup found none, and under a free ID |
| `Invariants.WriteAdopts` | internal/controller/openstackclusterstackrelease_controller.go:225-256 | an accepted write of a reconciliation in flight adopts the object: the writer owns it, every owner stays one, spec and status are kept |
| `Refinement.RoundsEnsureAll` | internal/controller/openstackclusterstackrelease_controller.go:163-179 | the loop with Get, Update and Create as separate atomic steps, when nobody interferes, does what the loop is specified to do as a whole |
| `Refinement.WholeReconcileRefines` | internal/controller/openstackclusterstackrelease_controller.go:80-217 | and so does the whole reconciliation: same objects, same stored status, same way out |
| `FairRuns.FairRunsConverge` | internal/controller/openstackclusterstackrelease_controller.go:121-216 | in every endless faultless run, with any number of reconciliations of releases in flight, their Get, Update, Create and List calls interleaved with each other and with the reconciliations of objects in any order, and Updates losing against status patches, a release with a valid tag and a node image becomes Ready at some time and is Ready ever after, provided that reconciliations in flight end, releases are reconciled once at first and then again whenever a reconciliation returned that it is to be called again, objects are reconciled again and again and each image becomes active at some time |
| `FairRuns.ComeToRest` | internal/controller/openstackclusterstackrelease_controller.go:219-260 | in every such run there is a time from which no object is written and no image changes |
| `FairRuns.NotReadyAsksAgain` | internal/controller/openstackclusterstackrelease_controller.go:105-217 | a call that ends a reconciliation with the result that it need not be called again leaves the release Ready, or had no assets client |
| `FairRuns.FinishingFinishes` | internal/controller/openstackclusterstackrelease_controller.go:181-216 | where all objects are settled, a reconciliation that nobody came between ends with the release Ready |
| `FairExample.FairRunsExist` | internal/controller/openstackclusterstackrelease_controller.go:121-216 | such runs exist: for every release with a valid tag and one node image, an endless fair faultless run from a reachable state that has the release, the object reconciled and the release reconciled call by call in turn |
| `Unrest.FaultlessRests` | internal/controller/openstacknodeimagerelease_controller.go:197-325 | a second lexicographic measure (objects to be created, objects without image, steps of images, timeouts to come, statuses a reconciliation would change, owners an Update would change) is raised by no faultless event and lowered by each that writes an object or changes an image |
| `Convergence.RankNeverRises` | internal/controller/openstackclusterstackrelease_controller.go:121-216 | from every state that meets the invariant, with whatever is in flight, no event of either controller, failed or not, no progress of an image, no passing of time and no new release raises the lexicographic measure of a release (assets, objects missing or unowned, images missing, steps of images, objects not settled, release not finished) |
| `Convergence.FinishedIsZero` | internal/controller/openstackclusterstackrelease_controller.go:196-214 | a release is finished if and only if its measure is zero |
| `Convergence.FinishedStays` | internal/controller/openstackclusterstackrelease_controller.go:211-216 | no such event makes a finished release unfinished or not Ready |
| `Progress.SomeRunLowers` | internal/controller/openstackclusterstackrelease_controller.go:121-216 | from every good state in which all options have a name, whatever is in flight, as long as a release is not finished some faultless run strictly lowers its measure |
| `Progress.Converges` | internal/controller/openstackclusterstackrelease_controller.go:80-217 | and a faultless run makes it Ready |
| `Progress.Completes` | internal/controller/openstackclusterstackrelease_controller.go:219-260 | a reconciliation in flight can be brought to its end without a fault: its writes are taken, or one is stale and ends it |
| `FaultlessRuns.FaultlessKeepsGood` | internal/controller/openstacknodeimagerelease_controller.go:78-328 | a faultless event, taken writes and stale ones included, leads to a good state |
| `Naming.CutKeepsFourSegments` | internal/controller/openstackclusterstackrelease_controller.go:330-339 | exactly the tags with 5 or 7 segments are accepted, the cut keeps exactly the first four, and the tag is the cut, a dash and the rest |
| `Naming.DashesDecide` | internal/controller/openstackclusterstackrelease_controller.go:330-339 | exactly the tags with four or six dashes are accepted, and three dashes are left |
| `Naming.EqualNames` | internal/controller/openstackclusterstackrelease_controller.go:164-174 | equal derived names come from equal stack prefixes, and from equal image names and versions if and only if the versions have equally many dashes |
| `Naming.SharedExactlyWithinAStack` | internal/controller/openstackclusterstackrelease_controller.go:164-167 | releases share the object of an image and version if and only if their tags agree on the first four segments |
| `Naming.DashesInVersionsCollide` | internal/controller/openstackclusterstackrelease_controller.go:174-174 | without equal dash counts two different images of one stack can take the same name |
| `BoilerplateTheorems.RepairPassesIff` | hack/boilerplate/boilerplate.py:124-169 | for every file content, and every reference with a non-empty first line, no line that begins like a special part and no generated mark: the repaired file is analysed as the original was, and it passes the check if and only if the reference is repairable (a condition on the reference and the year alone) |
| `BoilerplateSpecials.ScriptsHaveShebangs` | hack/boilerplate/boilerplate.py:94-105 | from a file with extension "sh" exactly the leftmost shebang line with the empty lines after it is taken out, and nothing if there is none |
| `BoilerplateSpecials.GoFilesHaveBuildTags` | hack/boilerplate/boilerplate.py:94-105 | from one with "go" or "generatego" exactly the leftmost block of build lines with its empty line, and nothing if there is none |
| `BoilerplateSpecials.OthersHaveNothing` | hack/boilerplate/boilerplate.py:94-105 | from any other nothing, and its header goes on top |
| `BoilerplateSpecials.ShebangStaysOnTop` | hack/boilerplate/boilerplate.py:256-275 | a script that begins with a shebang still does after the repair; the dated reference and a line end come next, then the rest |
| `BoilerplateSpecials.BuildTagsStayOnTop` | hack/boilerplate/boilerplate.py:256-275 | the same for the build lines of a Go file |
| `BoilerplateSpecials.CheckLooksBelow` | hack/boilerplate/boilerplate.py:124-137 | a file with its special part on top passes if and only if what comes below would pass as a file that may have none |
| `BoilerplateSpecials.ReferenceIsChosen` | hack/boilerplate/boilerplate.py:226-242 | a file counts as generated exactly if "DO NOT EDIT" stands anywhere in it and it is not skipped; that, its extension and its base name decide its reference, or that there is none |
| `BoilerplateSpecials.YearIsDecimal` | hack/boilerplate/boilerplate.py:267-269 | the year put in reads as the current one |
| `BoilerplateSpecials.DatesAre` | hack/boilerplate/boilerplate.py:278-280 | exactly the numbers of four digits from 2014 to the current year count as dates |
| `BoilerplateRepair.LineRepair` | hack/boilerplate/boilerplate.py:142-157 | a dated line is undated to its reference line, with no YEAR left over, if and only if no date begins before the YEAR and no date or YEAR follows it |
| `BoilerplateRepair.HeaderRepair` | hack/boilerplate/boilerplate.py:139-160 | the dated reference passes as a header if and only if the reference is repairable; both loops together |
| `BoilerplateTheorems.UsualReferenceIsRepairable` | hack/boilerplate/boilerplate.py:139-160 | one YEAR, no date up to it or after it on its line, and no digit right before it are enough |
| `BoilerplateTheorems.DigitsBeforeYearBreakTheRepair` | hack/boilerplate/boilerplate.py:267-269 | a clean reference with one YEAR and no date in it for which the repair of every file fails the check, whatever the extension: a digit before YEAR makes an earlier date |
| `BoilerplateTheorems.SpecialIsStripped` | hack/boilerplate/boilerplate.py:94-105 | the check strips from a repaired file just the special part that the repair moved to the top, also when it was found in the middle of the original |
| `BoilerplateTheorems.MarkIsKept` | hack/boilerplate/boilerplate.py:78-84 | a repaired file is marked as generated if and only if the original was |
| `BoilerplateTheorems.RepairConserves` | hack/boilerplate/boilerplate.py:256-275 | header length plus one longer, no character lost, and cutting the header out gives the original with its special part moved to the front |
| `Boilerplate.RepairedIsLonger` | hack/boilerplate/boilerplate.py:266-275 | the new text is longer than the old, so writing from the beginning without truncation leaves no stale tail |
| `Boilerplate.SpecialsSplit` | hack/boilerplate/boilerplate.py:87-91 | the removed part and the remainder account for every character, in place |
| `Boilerplate.FileContentPasses` | hack/boilerplate/boilerplate.py:124-169 | the loops with their early exits decide the check as specified: undating stops after the first dated line |
| `Boilerplate.EnsureBoilerplateFile` | hack/boilerplate/boilerplate.py:245-275 | the file holds exactly the repaired text, or is untouched when there is no reference |
| `BoilerplateSoundness.PassingHeaderIsDatedReference` | hack/boilerplate/boilerplate.py:139-169 | the stripped header of a file that passes agrees with the reference on every line but at most one, and that one is the reference line with each YEAR replaced by a year from 2014 to now; if the reference has a line with YEAR, that is the line |
| `BoilerplateSoundness.UndatingIsUndone` | hack/boilerplate/boilerplate.py:151-157 | undating a line without YEAR marks exactly its dates: no new YEAR comes about across a replaced date |
| `BoilerplateSoundness.BuildMatchIff` | hack/boilerplate/boilerplate.py:291-292 | the build-tag scanner matches exactly one or more build lines and an empty line |
| `BoilerplateSoundness.ShebangMatchIff` | hack/boilerplate/boilerplate.py:293-294 | the shebang scanner matches exactly one shebang line and all the line ends after it |
| `BoilerplateSoundness.SearchIsLeftmost` | hack/boilerplate/boilerplate.py:87-91 | a match at the beginning of any line is found, or one further left |
| `BoilerplateTheorems.SearchFinds` | hack/boilerplate/boilerplate.py:87-91 | what is found begins a line and matches there |
| `ReleaseNotesTheorems.ParseSucceedsIff` | hack/tools/release/notes.go:107-122 | no index is out of range if and only if the first non-blank line is a commit line |
| `ReleaseNotesTheorems.RecordsAreBlocks` | hack/tools/release/notes.go:109-121 | one record per commit line, holding the last merge line and the last other line before the next commit line |
| `ReleaseNotes.ClassifyBody` | hack/tools/release/notes.go:125-155 | the switch with its updates of key and body decides as the table of marks does |
| `ReleaseNotesTheorems.MarkDecides` | hack/tools/release/notes.go:127-155 | a title that bears the word or the sign of a mark goes to the section of the mark, documentation about a proposal to the proposals, and loses the mark |
| `ReleaseNotesPrinting.FeaturesAre` | hack/tools/release/notes.go:128-131 | whatever follows, ":sparkles:" and its sign make a new feature |
| `ReleaseNotesPrinting.BugsAre` | hack/tools/release/notes.go:132-135 | ":bug:" and its sign a bug fix |
| `ReleaseNotesPrinting.BooksAre` | hack/tools/release/notes.go:136-142 | ":book:" and its sign a proposal if "CAEP" or "proposal" stands in the rest, and else documentation |
| `ReleaseNotesPrinting.OthersAre` | hack/tools/release/notes.go:143-146 | ":seedling:" and its sign one of the others |
| `ReleaseNotesPrinting.WarningsAre` | hack/tools/release/notes.go:147-150 | ":warning:" and its sign a breaking change |
| `ReleaseNotesPrinting.MarkedTitle` | hack/tools/release/notes.go:125-155 | what is left of a marked title is what follows the mark, without spaces around it |
| `ReleaseNotesPrinting.LinesAre` | hack/tools/release/notes.go:109-121 | behind any spaces, "commit" begins a commit, "Merge" a merge line, nothing is passed over and anything else is a title |
| `ReleaseNotesPrinting.CommitIsPrinted` | hack/tools/release/notes.go:107-191 | for the lines of one merged pull request exactly one section is printed, that of its title, with the title and the number in brackets behind it, or for documentation the number alone |
| `ReleaseNotesPrinting.FeaturesAndFixesArePrinted` | hack/tools/release/notes.go:107-191 | a feature is so printed as a feature and a bug fix as a bug fix |
| `ReleaseNotesPrinting.DocumentationIsCounted` | hack/tools/release/notes.go:161-163 | of documentation only the number is printed |
| `ReleaseNotesPrinting.UnmarkedIsPrinted` | hack/tools/release/notes.go:151-166 | a title without a mark is printed whole, to be sorted by hand |
| `ReleaseNotesPrinting.NoNumberNoBrackets` | hack/tools/release/notes.go:204-209 | where no number is named the title stands alone |
| `ReleaseNotesPrinting.NothingToPrint` | hack/tools/release/notes.go:155-158 | of a mark without a title nothing is printed |
| `ReleaseNotesPrinting.SectionsAreInOrder` | hack/tools/release/notes.go:49-57 | the sections printed stand in the order proposals, breaking changes, features, bug fixes, others, documentation, unsorted, each once with all its entries, and none that is empty |
| `ReleaseNotesTheorems.UnmarkedIsUnknown` | hack/tools/release/notes.go:151-155 | a title is left to be sorted by hand if and only if it bears no mark, and then it is left whole |
| `ReleaseNotesTheorems.MarksExclude` | hack/tools/release/notes.go:127-153 | no title bears two marks, so the order of the cases does not matter |
| `ReleaseNotesTheorems.TitleIsMarked` | hack/tools/release/notes.go:125-151 | whatever follows a mark, trimming keeps it |
| `ReleaseNotesTheorems.PrNumberIsRead` | hack/tools/release/notes.go:160-160 | the number is read from the merge line that names it, whatever spaces stand between the words |
| `ReleaseNotesTheorems.ConservesIff` | hack/tools/release/notes.go:171-175 | an output order prints every kept entry exactly once in its section, for all records, if and only if it lists every section once |
| `ReleaseNotesTheorems.OutputOrderConserves` | hack/tools/release/notes.go:49-57 | the order of the tool does |
| `ReleaseNotesTheorems.PrintedCount` | hack/tools/release/notes.go:171-191 | an entry is printed as often as its section is listed |
| `ReleaseNotesTheorems.EntriesAreInOrder` | hack/tools/release/notes.go:124-166 | the entries of a section are those of its kept records, in the order of the records |
| `ReleaseNotesTheorems.PositionsAreAll` | hack/tools/release/notes.go:155-166 | and of all of them |
| `ReleaseNotes.ParseLine` | hack/tools/release/notes.go:109-122 | one turn of the parsing loop on the list of pointers changes just the last record or adds one |
| `ReleaseNotes.ParseLines` | hack/tools/release/notes.go:107-122 | the loop yields the parsed records as distinct objects, or fails where the tool would index out of range |
| `ReleaseNotes.Sort` | hack/tools/release/notes.go:124-166 | appending to missing and present keys of the map gives each section its entries |
| `ReleaseNotes.Run` | hack/tools/release/notes.go:107-191 | the three loops together print the sections of the parsed and sorted records |
| `DeepCopy.CreateOpts.DeepCopyInto` | api/v1alpha1/zz_generated.deepcopy.go:31-60 | the copy has an equal value, nil told apart from empty, and all its memory is new |
| `DeepCopy.NodeImage.DeepCopyInto` | api/v1alpha1/zz_generated.deepcopy.go:280-287 | the same one pointer deeper |
| `DeepCopy.NodeImageRelease.DeepCopyInto` | api/v1alpha1/zz_generated.deepcopy.go:300-306 | the same for the whole object with metadata, spec and status |
| `DeepCopy.NodeImageReleaseList.DeepCopyInto` | api/v1alpha1/zz_generated.deepcopy.go:327-338 | equal values element by element, every copy in new memory shared with no other copy |
| `DeepCopy.CopyItems` | api/v1alpha1/zz_generated.deepcopy.go:331-337 | the loop over the elements |
| `DeepCopy.CopyMap` | api/v1alpha1/zz_generated.deepcopy.go:53-59 | a new map with equal entries, nil for nil |
| `DeepCopy.CopySlice` | api/v1alpha1/zz_generated.deepcopy.go:43-47 | a new array with equal elements, nil for nil |
| `DeepCopy.CopyApart` | api/v1alpha1/zz_generated.deepcopy.go:308-316 | DeepCopy leaves the original as it was and returns an object of equal value with no memory in common |
| `DeepCopy.CopiesStaySeparate` | api/v1alpha1/zz_generated.deepcopy.go:300-316 | for an object and a copy of it, in both directions: whatever is done later to the memory of the one, the other keeps the value both had |
| `DeepCopy.CreateOpts.EqualFields` | api/v1alpha1/zz_generated.deepcopy.go:31-60 | values are equal exactly if all fields are, pointers, slices and maps followed |
| `DeepCopy.NodeImage.EqualFields` | api/v1alpha1/zz_generated.deepcopy.go:280-287 | the same for the image |
| `DeepCopy.NodeImageRelease.EqualFields` | api/v1alpha1/zz_generated.deepcopy.go:300-306 | and for the object |

## Left out

- TLS, authentication, provider and image clients, HTTP: a call succeeds or fails, with the exit the code takes.
- Secrets and YAML: `getCloudFromSecret` answers found, missing or unusable; node images come decoded, with their create options present.
- `release.New`, the assets clients and the download itself: a tag is there or not, a download succeeds or leaves nothing.
- NodeImageReconciler.Reconcile: a failing patch helper is the failing patch; the step of `Protocol` does not interleave with updates of its own object.
- StackReconciler.StackReconciler.Download: does not model a release directory whose removal fails after a failed download, because what the next reconciliation finds in it is up to library code; the release would then be read as present or as having an issue.
- Messages and severities of conditions, `SetSummary`, events and logs: a condition is its state, reason and transition time, so a False condition whose message alone changes keeps its time here; the one time that the code reads belongs to a True condition without message.
- Create options other than ID, name, tags and visibility in the default list, which no lookup looks at.
- Several namespaces or OpenStack projects, deletion of objects by garbage collection other than as a deletion by somebody.
- `cmd/main.go` beyond the import timeout; metrics, leader election, webhooks.
- boilerplate.py: arguments, directories, configuration, messages; a file name is its extension, its base name and whether it is on the skip list. Other line ends and encodings.
- notes.go: running git, the links and the exact layout of what is printed; of a documentation entry only the pull request number is kept, as the tool does.
- DeepCopy.NodeImageRelease.DeepCopyInto: of the metadata it copies labels and owner references without their two pointer fields; the copying of metadata is library code that the repository does not hold.
- Deep copies of the other types, which repeat the same shapes; elements of a slice are objects of their own; copying an object into itself.
- Shell scripts, Makefile, Tiltfile, manifests and custom resource definitions, template types, integration tests.
