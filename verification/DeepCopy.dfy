/** Deep copies of the API objects: structs with nullable pointers, slices and maps. */
module DeepCopy {
  import opened Wrappers

  // ---------- memory cells ----------

  class Cell<T> {
    var value: T

    constructor (value: T)
      ensures this.value == value
    {
      this.value := value;
    }
  }

  class StringMap {
    var entries: map<string, string>

    constructor ()
      ensures entries == map[]
    {
      entries := map[];
    }
  }

  function Pointed<T>(p: Cell?<T>): Option<T>
    reads p
  {
    if p == null then None else Some(p.value)
  }

  function Slice<T>(a: array?<T>): Option<seq<T>>
    reads a
  {
    if a == null then None else Some(a[..])
  }

  function Entries(m: StringMap?): Option<map<string, string>>
    reads m
  {
    if m == null then None else Some(m.entries)
  }

  /** The object as far as there is one. */
  function Only(o: object?): set<object> {
    if o == null then {} else {o}
  }

  /** Nil is told apart from empty, and contents from contents. */
  lemma ContentsTell(a: array?<string>, b: array?<string>, m: StringMap?, n: StringMap?, p: Cell?<bool>, q: Cell?<bool>)
    ensures Slice(a) == Slice(b) <==> (a == null && b == null) || (a != null && b != null && a[..] == b[..])
    ensures Entries(m) == Entries(n) <==> (m == null && n == null) || (m != null && n != null && m.entries == n.entries)
    ensures Pointed(p) == Pointed(q) <==> (p == null && q == null) || (p != null && q != null && p.value == q.value)
  {
  }

  method CopyCell<T>(p: Cell?<T>) returns (q: Cell?<T>)
    ensures fresh(Only(q)) && Pointed(q) == Pointed(p)
  {
    if p == null {
      q := null;
    } else {
      q := new Cell(p.value);
    }
  }

  method CopySlice<T(0)>(a: array?<T>) returns (b: array?<T>)
    ensures fresh(Only(b)) && Slice(b) == Slice(a)
  {
    if a == null {
      b := null;
    } else {
      b := new T[a.Length];
      for i := 0 to a.Length
        invariant b[..i] == a[..i]
      {
        b[i] := a[i];
      }
      assert b[..] == a[..];
    }
  }

  method CopyMap(m: StringMap?) returns (c: StringMap?)
    ensures fresh(Only(c)) && Entries(c) == Entries(m)
  {
    if m == null {
      c := null;
    } else {
      c := new StringMap();
      var left := m.entries.Keys;
      while left != {}
        invariant fresh(c) && left <= m.entries.Keys
        invariant c.entries.Keys == m.entries.Keys - left
        invariant forall k :: k in c.entries ==> c.entries[k] == m.entries[k]
      {
        var k :| k in left;
        c.entries := c.entries[k := m.entries[k]];
        left := left - {k};
      }
      assert c.entries == m.entries;
    }
  }

  // ---------- CreateOpts ----------

  /** The fields of a struct that are copied with it. */
  datatype PlainOpts = PlainOpts(name: string, id: string, containerFormat: string, diskFormat: string,
                                 minDisk: int, minRAM: int)

  datatype CreateOptsValue = CreateOptsValue(plain: PlainOpts, visibility: Option<string>, hidden: Option<bool>,
                                             tags: Option<seq<string>>, protected: Option<bool>,
                                             properties: Option<map<string, string>>)

  /** Repr is the memory a struct owns: its own and all its pointers reach. */
  class CreateOpts {
    ghost var Repr: set<object>
    var plain: PlainOpts
    var visibility: Cell?<string>
    var hidden: Cell?<bool>
    var tags: array?<string>
    var protected: Cell?<bool>
    var properties: StringMap?

    ghost predicate Valid()
      reads this, Repr
    {
      && this in Repr
      && (visibility != null ==> visibility in Repr) && (hidden != null ==> hidden in Repr)
      && (tags != null ==> tags in Repr) && (protected != null ==> protected in Repr)
      && (properties != null ==> properties in Repr)
    }

    constructor ()
      ensures Repr == {this}
    {
      plain := PlainOpts("", "", "", "", 0, 0);
      visibility, hidden, tags, protected, properties := null, null, null, null, null;
      Repr := {this};
    }

    /** What the struct holds, pointers followed, nil told apart from empty. */
    ghost function Value(): CreateOptsValue
      requires Valid()
      reads this, Repr
    {
      CreateOptsValue(plain, Pointed(visibility), Pointed(hidden), Slice(tags), Pointed(protected), Entries(properties))
    }

    /** Equal values are equal field by field. */
    lemma EqualFields(that: CreateOpts)
      requires Valid() && that.Valid()
      ensures Value() == that.Value() <==>
                && plain == that.plain && Pointed(visibility) == Pointed(that.visibility)
                && Pointed(hidden) == Pointed(that.hidden) && Slice(tags) == Slice(that.tags)
                && Pointed(protected) == Pointed(that.protected) && Entries(properties) == Entries(that.properties)
    {
    }

    /** The guarded copies: what is not nil gets memory of its own. */
    method CopyParts() returns (v: Cell?<string>, h: Cell?<bool>, t: array?<string>, p: Cell?<bool>, m: StringMap?,
                                ghost memory: set<object>)
      requires Valid()
      ensures fresh(memory)
      ensures (v != null ==> v in memory) && (h != null ==> h in memory) && (t != null ==> t in memory)
      ensures (p != null ==> p in memory) && (m != null ==> m in memory)
      ensures Pointed(v) == Pointed(visibility) && Pointed(h) == Pointed(hidden) && Slice(t) == Slice(tags)
      ensures Pointed(p) == Pointed(protected) && Entries(m) == Entries(properties)
    {
      v := CopyCell(visibility);
      h := CopyCell(hidden);
      t := CopySlice(tags);
      p := CopyCell(protected);
      m := CopyMap(properties);
      memory := Only(v) + Only(h) + Only(t) + Only(p) + Only(m);
    }

    method DeepCopyInto(out: CreateOpts)
      requires Valid() && out != this
      modifies out
      ensures out.Valid() && fresh(out.Repr - {out}) && out.Value() == old(Value())
    {
      var v, h, t, p, m;
      ghost var memory;
      v, h, t, p, m, memory := CopyParts();
      out.plain := plain;
      out.visibility, out.hidden, out.tags, out.protected, out.properties := v, h, t, p, m;
      out.Repr := {out} + memory;
    }

    method DeepCopy() returns (out: CreateOpts)
      requires Valid()
      ensures out.Valid() && fresh(out.Repr) && out.Value() == old(Value())
    {
      out := new CreateOpts();
      DeepCopyInto(out);
    }
  }

  // ---------- OpenStackNodeImage ----------

  datatype NodeImageValue = NodeImageValue(url: string, createOpts: Option<CreateOptsValue>)

  class NodeImage {
    ghost var Repr: set<object>
    var url: string
    var createOpts: CreateOpts?

    ghost predicate Valid()
      reads this, Repr
    {
      && this in Repr
      && (createOpts != null ==> createOpts in Repr && createOpts.Repr <= Repr && createOpts.Valid())
    }

    constructor ()
      ensures Repr == {this}
    {
      url, createOpts, Repr := "", null, {this};
    }

    ghost function Value(): NodeImageValue
      requires Valid()
      reads this, Repr
    {
      NodeImageValue(url, if createOpts == null then None else Some(createOpts.Value()))
    }

    lemma EqualFields(that: NodeImage)
      requires Valid() && that.Valid()
      ensures Value() == that.Value() <==>
                && url == that.url && (createOpts == null <==> that.createOpts == null)
                && (createOpts != null && that.createOpts != null ==> createOpts.Value() == that.createOpts.Value())
    {
    }

    method DeepCopyInto(out: NodeImage)
      requires Valid() && out != this && out !in Repr
      modifies out
      ensures out.Valid() && fresh(out.Repr - {out}) && out.Value() == old(Value())
    {
      var c: CreateOpts? := null;
      if createOpts != null {
        c := createOpts.DeepCopy();
      }
      out.url, out.createOpts := url, c;
      out.Repr := {out} + if c == null then {} else c.Repr;
    }

    method DeepCopy() returns (out: NodeImage)
      requires Valid()
      ensures out.Valid() && fresh(out.Repr) && out.Value() == old(Value())
    {
      out := new NodeImage();
      DeepCopyInto(out);
    }
  }

  // ---------- OpenStackNodeImageRelease ----------

  datatype Identity = Identity(kind: string, name: string)
  datatype OwnerReference = OwnerReference(apiVersion: string, kind: string, name: string, uid: string)
  datatype Condition = Condition(kind: string, status: string, reason: string, message: string, lastTransition: int)

  datatype PlainRelease = PlainRelease(apiVersion: string, kind: string, name: string, namespace: string, ready: bool)

  datatype ReleaseValue = ReleaseValue(plain: PlainRelease, labels: Option<map<string, string>>,
                                       owners: Option<seq<OwnerReference>>, identityRef: Option<Identity>,
                                       conditions: Option<seq<Condition>>, image: Option<NodeImageValue>)

  /** The object; its metadata, spec and status are embedded, so their fields are fields of it. */
  class NodeImageRelease {
    ghost var Repr: set<object>
    var plain: PlainRelease
    var labels: StringMap?
    var owners: array?<OwnerReference>
    var identityRef: Cell?<Identity>
    var conditions: array?<Condition>
    var image: NodeImage?

    ghost predicate Valid()
      reads this, Repr
    {
      && this in Repr
      && (labels != null ==> labels in Repr) && (owners != null ==> owners in Repr)
      && (identityRef != null ==> identityRef in Repr) && (conditions != null ==> conditions in Repr)
      && (image != null ==> image in Repr && image.Repr <= Repr && this !in image.Repr && image.Valid())
    }

    constructor ()
      ensures Repr == {this}
    {
      plain := PlainRelease("", "", "", "", false);
      labels, owners, identityRef, conditions, image := null, null, null, null, null;
      Repr := {this};
    }

    ghost function Value(): ReleaseValue
      requires Valid()
      reads this, Repr
    {
      ReleaseValue(plain, Entries(labels), Slice(owners), Pointed(identityRef), Slice(conditions),
                   if image == null then None else Some(image.Value()))
    }

    lemma EqualFields(that: NodeImageRelease)
      requires Valid() && that.Valid()
      ensures Value() == that.Value() <==>
                && plain == that.plain && Entries(labels) == Entries(that.labels) && Slice(owners) == Slice(that.owners)
                && Pointed(identityRef) == Pointed(that.identityRef) && Slice(conditions) == Slice(that.conditions)
                && (image == null <==> that.image == null)
                && (image != null && that.image != null ==> image.Value() == that.image.Value())
    {
    }

    method CopyParts() returns (l: StringMap?, o: array?<OwnerReference>, r: Cell?<Identity>, c: array?<Condition>,
                                ghost memory: set<object>)
      requires Valid()
      ensures fresh(memory)
      ensures (l != null ==> l in memory) && (o != null ==> o in memory) && (r != null ==> r in memory)
      ensures c != null ==> c in memory
      ensures Entries(l) == Entries(labels) && Slice(o) == Slice(owners)
      ensures Pointed(r) == Pointed(identityRef) && Slice(c) == Slice(conditions)
    {
      l := CopyMap(labels);
      o := CopySlice(owners);
      r := CopyCell(identityRef);
      c := CopySlice(conditions);
      memory := Only(l) + Only(o) + Only(r) + Only(c);
    }

    /** All fields at once; the memory they point to is not this object's own. */
    method Assign(plain: PlainRelease, l: StringMap?, o: array?<OwnerReference>, r: Cell?<Identity>, c: array?<Condition>,
                  i: NodeImage?, ghost memory: set<object>)
      requires this !in memory
      requires (l != null ==> l in memory) && (o != null ==> o in memory) && (r != null ==> r in memory)
      requires (c != null ==> c in memory) && (i != null ==> i in memory && i.Repr <= memory && i.Valid())
      modifies this
      ensures Valid() && Repr == {this} + memory
      ensures this.plain == plain && labels == l && owners == o && identityRef == r && conditions == c && image == i
      ensures i != null ==> i.Value() == old(i.Value())
    {
      this.plain, labels, owners, identityRef, conditions, image := plain, l, o, r, c, i;
      Repr := {this} + memory;
    }

    method CopyImage() returns (i: NodeImage?)
      requires Valid()
      ensures i != null <==> image != null
      ensures i != null ==> i.Valid() && fresh(i.Repr) && i.Value() == old(image.Value())
    {
      i := null;
      if image != null {
        i := image.DeepCopy();
      }
    }

    method DeepCopyInto(out: NodeImageRelease)
      requires Valid() && out != this && out !in Repr
      modifies out
      ensures out.Valid() && fresh(out.Repr - {out}) && out.Value() == old(Value())
    {
      var l, o, r, c;
      ghost var memory;
      l, o, r, c, memory := CopyParts();
      var i := CopyImage();
      ghost var imageMemory: set<object> := if i == null then {} else i.Repr;
      out.Assign(plain, l, o, r, c, i, memory + imageMemory);
    }

    method DeepCopy() returns (out: NodeImageRelease)
      requires Valid()
      ensures out.Valid() && fresh(out.Repr) && out.Value() == old(Value())
    {
      out := new NodeImageRelease();
      DeepCopyInto(out);
    }
  }

  /** A copy: equal value, no memory in common. */
  ghost predicate Copied(a: NodeImageRelease, b: NodeImageRelease)
    reads a, b, a.Repr, b.Repr
  {
    a.Valid() && b.Valid() && a.Repr !! b.Repr && b.Value() == a.Value()
  }

  /** What DeepCopy returns is a copy in this sense. */
  method CopyApart(a: NodeImageRelease) returns (b: NodeImageRelease)
    requires a.Valid()
    ensures Copied(a, b) && fresh(b.Repr) && a.Value() == old(a.Value())
  {
    b := a.DeepCopy();
  }

  /** An object and a copy of it, later: whatever was done to the memory of the one, the other still has the value both
      had. */
  twostate lemma CopiesStaySeparate(a: NodeImageRelease, b: NodeImageRelease, touched: set<object>)
    requires old(Copied(a, b) || Copied(b, a)) && touched <= old(b.Repr)
    requires forall o :: o in old(a.Repr + b.Repr) && o !in touched ==> unchanged(o)
    ensures a.Valid() && a.Value() == old(a.Value()) == old(b.Value())
  {
    assert forall o :: o in old(a.Repr) ==> o !in touched;
    assert unchanged(old(a.Repr));
  }

  // ---------- OpenStackNodeImageReleaseList ----------

  /** The elements of a slice of structs are objects of their own; the slice may be nil. */
  class NodeImageReleaseList {
    var apiVersion: string
    var kind: string
    var items: Option<seq<NodeImageRelease>>

    constructor ()
    {
      apiVersion, kind, items := "", "", None;
    }

    ghost predicate Valid()
      reads this
      reads if items.None? then [] else items.value
      reads if items.None? then {} else set r, o | r in items.value && o in r.Repr :: o
    {
      items.Some? ==> forall i :: 0 <= i < |items.value| ==> items.value[i].Valid()
    }

    method DeepCopyInto(out: NodeImageReleaseList)
      requires Valid() && out != this
      requires items.Some? ==> forall i :: 0 <= i < |items.value| ==> out !in items.value[i].Repr
      modifies out
      ensures out.apiVersion == apiVersion && out.kind == kind && items == old(items)
      ensures out.items.Some? <==> items.Some?
      ensures items.Some? ==> CopyOf(out.items.value, items.value)
    {
      out.apiVersion, out.kind := apiVersion, kind;
      if items.None? {
        out.items := None;
      } else {
        var copies := CopyItems(items.value);
        label Copied:
        out.items := Some(copies);
        assert forall i :: 0 <= i < |copies| ==> out !in copies[i].Repr;
        assert forall i :: 0 <= i < |copies| ==> copies[i].Valid() && copies[i].Value() == old@Copied(copies[i].Value());
      }
    }

    method DeepCopy() returns (out: NodeImageReleaseList)
      requires Valid()
      ensures fresh(out) && out.apiVersion == apiVersion && out.kind == kind
      ensures out.items.Some? <==> items.Some?
      ensures items.Some? ==> CopyOf(out.items.value, items.value)
    {
      out := new NodeImageReleaseList();
      DeepCopyInto(out);
    }
  }

  /** Equal values element by element, and every copy in new memory that it shares with no other copy. */
  twostate predicate CopyOf(new copies: seq<NodeImageRelease>, items: seq<NodeImageRelease>)
    requires forall i :: 0 <= i < |items| ==> old(items[i].Valid())
    reads copies, set r, o | r in copies && o in r.Repr :: o
  {
    && |copies| == |items|
    && (forall i :: 0 <= i < |items| ==>
          copies[i].Valid() && fresh(copies[i].Repr) && copies[i].Value() == old(items[i].Value()))
    && (forall i, j :: 0 <= i < j < |items| ==> copies[i].Repr !! copies[j].Repr)
  }

  method CopyItems(items: seq<NodeImageRelease>) returns (copies: seq<NodeImageRelease>)
    requires forall i :: 0 <= i < |items| ==> items[i].Valid()
    ensures CopyOf(copies, items)
  {
    copies := [];
    for i := 0 to |items|
      invariant |copies| == i
      invariant forall j :: 0 <= j < i ==>
                  copies[j].Valid() && fresh(copies[j].Repr) && copies[j].Value() == old(items[j].Value())
      invariant forall j, k :: 0 <= j < k < i ==> copies[j].Repr !! copies[k].Repr
    {
      var copy := items[i].DeepCopy();
      copies := copies + [copy];
    }
  }
}
