/** The OpenStack image service as the controllers see it: a set of images, and a lookup by ID or by
    name and tags. One OpenStack project. */
module Glance {
  /** An ID is either asked for in the create options or minted by the service; minted IDs are never asked for. */
  datatype ImageId = Given(id: string) | Minted(serial: nat)

  datatype ImageStatus = Queued | Saving | Importing | Uploading | Active | Killed | Deleted | PendingDelete
                       | Deactivated | Other(name: string)

  datatype CreateOpts = CreateOpts(id: string, name: string, tags: set<string>, hidden: bool)

  /** An image keeps the options it was created with. `fed` says that an import into it was accepted. */
  datatype Image = Image(origin: CreateOpts, fed: bool, status: ImageStatus)

  type Images = map<ImageId, Image>

  function IdFor(opts: CreateOpts, serial: nat): ImageId {
    if opts.id != "" then Given(opts.id) else Minted(serial)
  }

  /** The filter getImageID sends: by ID when there is one, else by name and tags; an empty filter is not
      sent, and hidden images are not in the default list. */
  predicate Finds(opts: CreateOpts, id: ImageId, img: Image) {
    && !img.origin.hidden
    && if opts.id != "" then id == Given(opts.id)
       else (opts.name == "" || img.origin.name == opts.name) && opts.tags <= img.origin.tags
  }

  function Lookup(images: Images, opts: CreateOpts): set<ImageId> {
    set id | id in images && Finds(opts, id, images[id])
  }

  /** The listed images that have the name, or any name if it is empty, and all the tags. */
  function ByNameAndTags(images: Images, name: string, tags: set<string>): set<ImageId> {
    Lookup(images, CreateOpts("", name, tags, false))
  }

  /** A lookup with an ID is by that alone. One without is by name and tags: by neither it lists every image that is not
      hidden, and each name and tag asked for leaves those images that have it. */
  lemma LookupByParts(images: Images, opts: CreateOpts, name: string, tag: string, tags: set<string>)
    ensures Lookup(images, opts) == if opts.id == "" then ByNameAndTags(images, opts.name, opts.tags)
                                    else set i | i in images && !images[i].origin.hidden && i == Given(opts.id)
    ensures ByNameAndTags(images, "", {}) == set i | i in images && !images[i].origin.hidden
    ensures ByNameAndTags(images, "", {tag}) == set i | i in ByNameAndTags(images, "", {}) && tag in images[i].origin.tags
    ensures ByNameAndTags(images, "", tags + {tag}) == ByNameAndTags(images, "", tags) * ByNameAndTags(images, "", {tag})
    ensures name != "" ==>
              ByNameAndTags(images, name, tags) == set i | i in ByNameAndTags(images, "", tags) && images[i].origin.name == name
  {
  }

  /** An object finds the image that was made for it, unless that is hidden, and so does whoever asks for no more. */
  lemma FindsItsOwn(images: Images, opts: CreateOpts, serial: nat, tags: set<string>)
    requires IdFor(opts, serial) in images && images[IdFor(opts, serial)].origin == opts
    ensures IdFor(opts, serial) in Lookup(images, opts) <==> !opts.hidden
    ensures !opts.hidden && tags <= opts.tags ==> IdFor(opts, serial) in Lookup(images, CreateOpts("", opts.name, tags, false))
  {
  }

  /** The answer to a List call: every image found, once. */
  ghost predicate Lists(ids: seq<ImageId>, found: set<ImageId>) {
    && (forall id :: id in ids <==> id in found)
    && |ids| == |found|
  }

  /** What may happen to images without this controller: they disappear or change status. */
  ghost predicate Drifts(before: Images, after: Images) {
    && after.Keys <= before.Keys
    && forall id :: id in after ==> after[id].origin == before[id].origin && after[id].fed == before[id].fed
  }

  /** Every image was made from options of the set that have a name, under the ID these ask for. */
  ghost predicate MadeFrom(images: Images, specs: set<CreateOpts>, serial: nat) {
    forall id :: id in images ==>
      && images[id].origin in specs && images[id].origin.name != ""
      && (id.Given? <==> images[id].origin.id != "")
      && (id.Given? ==> id.id == images[id].origin.id)
      && (id.Minted? ==> id.serial < serial)
  }

  // ---------- when lookups stay unambiguous ----------

  /** The image made from a is found by the lookup of b. */
  predicate Satisfies(a: CreateOpts, b: CreateOpts) {
    && !a.hidden
    && if b.id != "" then a.id == b.id
       else (b.name == "" || a.name == b.name) && b.tags <= a.tags
  }

  /** Two options whose images share a lookup find each other's images. Images are made only from options with a
      name, so only such options are paired; the lookup may be anybody's. */
  ghost predicate Compatible(specs: set<CreateOpts>) {
    forall a, b, c :: a in specs && b in specs && c in specs && a.name != "" && c.name != "" ==>
      Satisfies(a, b) && Satisfies(c, b) ==> Satisfies(a, c)
  }

  ghost predicate Unambiguous(images: Images, specs: set<CreateOpts>) {
    forall opts, i, j :: opts in specs && i in Lookup(images, opts) && j in Lookup(images, opts) ==> i == j
  }

  lemma FindsIsSatisfies(images: Images, specs: set<CreateOpts>, serial: nat, opts: CreateOpts, id: ImageId)
    requires MadeFrom(images, specs, serial) && id in images
    ensures id in Lookup(images, opts) <==> Satisfies(images[id].origin, opts)
  {
  }

  /** Creating an image only when the lookup is empty keeps all lookups unambiguous. */
  lemma CreateKeepsUnambiguous(images: Images, specs: set<CreateOpts>, serial: nat, opts: CreateOpts, img: Image)
    requires MadeFrom(images, specs, serial) && Compatible(specs) && Unambiguous(images, specs)
    requires opts in specs && opts.name != "" && Lookup(images, opts) == {}
    requires img.origin == opts && IdFor(opts, serial) !in images
    ensures MadeFrom(images[IdFor(opts, serial) := img], specs, serial + 1)
    ensures Unambiguous(images[IdFor(opts, serial) := img], specs)
  {
    var made := IdFor(opts, serial);
    var after := images[made := img];
    forall b, i, j | b in specs && i in Lookup(after, b) && j in Lookup(after, b)
      ensures i == j
    {
      FindsIsSatisfies(after, specs, serial + 1, b, i);
      FindsIsSatisfies(after, specs, serial + 1, b, j);
      if i != made && j == made {
        FindsIsSatisfies(images, specs, serial, opts, i);
      } else if i == made && j != made {
        FindsIsSatisfies(images, specs, serial, opts, j);
      } else if i != made {
        assert i in Lookup(images, b) && j in Lookup(images, b);
      }
    }
  }

  lemma DriftKeepsUnambiguous(before: Images, after: Images, specs: set<CreateOpts>, serial: nat)
    requires MadeFrom(before, specs, serial) && Unambiguous(before, specs) && Drifts(before, after)
    ensures MadeFrom(after, specs, serial) && Unambiguous(after, specs)
    ensures forall opts :: Lookup(after, opts) <= Lookup(before, opts)
  {
    forall opts, i | i in Lookup(after, opts)
      ensures i in Lookup(before, opts)
    {
    }
  }

  lemma {:induction false} ListingSize(ids: seq<ImageId>, found: set<ImageId>)
    requires Lists(ids, found)
    requires forall i, j :: i in found && j in found ==> i == j
    ensures |ids| <= 1
  {
    if found != {} {
      var x :| x in found;
      assert found == {x};
    }
  }
}
