/** Owner references between OpenStackClusterStackRelease objects (the owners) and
    OpenStackNodeImageRelease objects (the owned). */
module Owners {
  import opened Wrappers

  datatype OwnerRef = OwnerRef(apiVersion: string, kind: string, name: string, uid: string)

  /** The identity of an object as its type and object metadata give it. */
  datatype Identity = Identity(apiVersion: string, kind: string, name: string, uid: string)

  // ---------- group of an API version ----------

  function Slashes(s: string): nat {
    if s == "" then 0 else (if s[0] == '/' then 1 else 0) + Slashes(s[1..])
  }

  function UpToSlash(s: string): string {
    if s == "" || s[0] == '/' then "" else [s[0]] + UpToSlash(s[1..])
  }

  /** The group part of "group/version"; a bare version has the empty group; more than one slash is an error. */
  function GroupOf(apiVersion: string): Option<string> {
    if apiVersion == "" || apiVersion == "/" then Some("")
    else match Slashes(apiVersion)
      case 0 => Some("")
      case 1 => Some(UpToSlash(apiVersion))
      case _ => None
  }

  predicate Parseable(apiVersion: string) {
    GroupOf(apiVersion).Some?
  }

  predicate SlashFree(s: string) {
    '/' !in s
  }

  lemma {:induction false} SlashesAdd(a: string, b: string)
    ensures Slashes(a + b) == Slashes(a) + Slashes(b)
  {
    if a == "" {
      assert a + b == b;
    } else {
      assert (a + b)[1..] == a[1..] + b;
      SlashesAdd(a[1..], b);
    }
  }

  lemma {:induction false} SlashFreeHasNone(s: string)
    ensures SlashFree(s) <==> Slashes(s) == 0
  {
    if s != "" {
      SlashFreeHasNone(s[1..]);
      assert s == [s[0]] + s[1..];
    }
  }

  lemma {:induction false} UpToFirstSlash(g: string, v: string)
    requires SlashFree(g)
    ensures UpToSlash(g + "/" + v) == g
  {
    var s := g + "/" + v;
    if g == "" {
      assert s[0] == '/';
    } else {
      assert s[0] == g[0] && s[1..] == g[1..] + "/" + v;
      UpToFirstSlash(g[1..], v);
    }
  }

  /** "group/version" has that group, a bare version has the empty one. */
  lemma GroupIsBeforeSlash(g: string, v: string)
    requires SlashFree(g) && SlashFree(v)
    ensures GroupOf(g + "/" + v) == Some(g) && GroupOf(v) == Some("")
  {
    SlashFreeHasNone(g);
    SlashFreeHasNone(v);
    SlashesAdd(g, "/");
    SlashesAdd(g + "/", v);
    assert Slashes("/") == 1;
    UpToFirstSlash(g, v);
    if g + "/" + v == "/" {
      assert g == "";
    }
  }

  /** An API version cannot be parsed exactly when there are two slashes in it. */
  lemma UnparseableIff(s: string)
    ensures !Parseable(s) <==> exists a, b, c :: s == a + "/" + b + "/" + c
  {
    if a, b, c :| s == a + "/" + b + "/" + c {
      SlashesAdd(a, "/");
      SlashesAdd(a + "/", b);
      SlashesAdd(a + "/" + b, "/");
      SlashesAdd(a + "/" + b + "/", c);
      assert Slashes("/") == 1;
    }
    if Slashes(s) >= 2 {
      var a, r := FirstSlash(s);
      SlashFreeHasNone(a);
      SlashesAdd(a, "/");
      SlashesAdd(a + "/", r);
      assert Slashes("/") == 1;
      var b, c := FirstSlash(r);
      assert s == a + "/" + b + "/" + c;
    }
  }

  lemma {:induction false} FirstSlash(s: string) returns (a: string, r: string)
    requires Slashes(s) > 0
    ensures s == a + "/" + r && SlashFree(a)
  {
    if s[0] == '/' {
      a, r := "", s[1..];
    } else {
      var b;
      b, r := FirstSlash(s[1..]);
      a := [s[0]] + b;
    }
  }

  // ---------- writing a reference ----------

  function Generate(o: Identity): OwnerRef {
    OwnerRef(o.apiVersion, o.kind, o.name, o.uid)
  }

  predicate SameReferent(a: OwnerRef, b: OwnerRef) {
    && Parseable(a.apiVersion) && Parseable(b.apiVersion)
    && GroupOf(a.apiVersion) == GroupOf(b.apiVersion) && a.kind == b.kind && a.name == b.name
  }

  /** The library contract: a reference to the same group, kind and name is replaced, else ref is appended. */
  function EnsureOwnerRef(owners: seq<OwnerRef>, ref: OwnerRef): seq<OwnerRef> {
    if owners == [] then [ref]
    else if SameReferent(owners[0], ref) then [ref] + owners[1..]
    else [owners[0]] + EnsureOwnerRef(owners[1..], ref)
  }

  lemma {:induction false} EnsureKeepsOthers(owners: seq<OwnerRef>, ref: OwnerRef)
    ensures ref in EnsureOwnerRef(owners, ref)
    ensures forall r :: r in owners && !SameReferent(r, ref) ==> r in EnsureOwnerRef(owners, ref)
    ensures forall r :: r in EnsureOwnerRef(owners, ref) ==> r == ref || r in owners
  {
    if owners != [] && !SameReferent(owners[0], ref) {
      EnsureKeepsOthers(owners[1..], ref);
    }
  }

  /** Exactly the first reference to the same owner is replaced, in its place; without one, ref is appended. */
  lemma {:induction false} EnsureReplacesFirst(owners: seq<OwnerRef>, ref: OwnerRef) returns (i: nat)
    ensures i <= |owners| && forall j :: 0 <= j < i ==> !SameReferent(owners[j], ref)
    ensures i < |owners| ==> SameReferent(owners[i], ref) && EnsureOwnerRef(owners, ref) == owners[i := ref]
    ensures i == |owners| ==> EnsureOwnerRef(owners, ref) == owners + [ref]
  {
    if owners == [] || SameReferent(owners[0], ref) {
      i := 0;
    } else {
      var k := EnsureReplacesFirst(owners[1..], ref);
      i := k + 1;
      assert i < |owners| ==> owners[i := ref] == [owners[0]] + owners[1..][k := ref];
    }
  }

  /** So an old reference to the same owner is gone, where there was only the one. */
  lemma OldReferenceIsGone(owners: seq<OwnerRef>, ref: OwnerRef, r: OwnerRef)
    requires forall i, j :: 0 <= i < j < |owners| && SameReferent(owners[i], ref) ==> !SameReferent(owners[j], ref)
    requires r in EnsureOwnerRef(owners, ref) && SameReferent(r, ref)
    ensures r == ref
  {
    var i := EnsureReplacesFirst(owners, ref);
    assert forall j :: 0 <= j < |owners| && j != i ==> !SameReferent(owners[j], ref);
  }

  /** Ensuring twice is ensuring once exactly when the reference's API version can be parsed;
      one that cannot is appended again every time. */
  lemma {:induction false} EnsureIdempotent(owners: seq<OwnerRef>, ref: OwnerRef)
    ensures EnsureOwnerRef(EnsureOwnerRef(owners, ref), ref) == EnsureOwnerRef(owners, ref)
       <==> Parseable(ref.apiVersion)
  {
    var once := EnsureOwnerRef(owners, ref);
    if owners == [] {
    } else if SameReferent(owners[0], ref) {
      assert once[0] == ref && once[1..] == owners[1..];
    } else {
      EnsureIdempotent(owners[1..], ref);
      assert once[0] == owners[0] && once[1..] == EnsureOwnerRef(owners[1..], ref);
      var twice := EnsureOwnerRef(once, ref);
      assert twice[1..] == EnsureOwnerRef(once[1..], ref);
      assert twice == [twice[0]] + twice[1..] && once == [once[0]] + once[1..];
    }
  }

  // ---------- recognising a reference ----------

  /** An object whose API version cannot be parsed counts as having the empty group. */
  function GroupOfObject(o: Identity): string {
    match GroupOf(o.apiVersion) case Some(g) => g case None => ""
  }

  predicate Match(a: OwnerRef, o: Identity) {
    match GroupOf(a.apiVersion)
    case None => false
    case Some(g) => g == GroupOfObject(o) && a.kind == o.kind && a.name == o.name
  }

  /** Where it is the group that counts: a reference of API version g/v is of an object of API version h/u, and is
      replaced by the reference to it, exactly when g and h agree, and kind and name; versions and UIDs do not matter. */
  lemma GroupKindAndNameDecide(r: OwnerRef, o: Identity, g: string, v: string, h: string, u: string)
    requires SlashFree(g) && SlashFree(v) && SlashFree(h) && SlashFree(u)
    requires r.apiVersion == g + "/" + v && o.apiVersion == h + "/" + u
    ensures Match(r, o) <==> g == h && r.kind == o.kind && r.name == o.name
    ensures EnsureOwnerRef([r], Generate(o)) == if g == h && r.kind == o.kind && r.name == o.name then [Generate(o)]
                                                else [r, Generate(o)]
  {
    GroupIsBeforeSlash(g, v);
    GroupIsBeforeSlash(h, u);
  }

  /** A bare version is of the core group. */
  lemma BareVersionsAreOneGroup(r: OwnerRef, o: Identity, g: string)
    requires SlashFree(r.apiVersion) && SlashFree(o.apiVersion) && SlashFree(g)
    ensures Match(r, o) <==> r.kind == o.kind && r.name == o.name
    ensures g != "" ==> !Match(r, o.(apiVersion := g + "/" + o.apiVersion)) && !Match(r.(apiVersion := g + "/" + r.apiVersion), o)
    ensures forall a, b, c :: Match(r, o.(apiVersion := a + "/" + b + "/" + c)) <==> r.kind == o.kind && r.name == o.name
    ensures forall a, b, c :: !Match(r.(apiVersion := a + "/" + b + "/" + c), o)
  {
    GroupIsBeforeSlash(g, r.apiVersion);
    GroupIsBeforeSlash(g, o.apiVersion);
    forall a, b, c
      ensures !Parseable(a + "/" + b + "/" + c)
    {
      UnparseableIff(a + "/" + b + "/" + c);
    }
  }

  /** The reference written for an object carries what identifies it, and where there was one reference to it, that is
      the only one left: an old UID or version is gone. */
  lemma ReferenceIsRefreshed(r: OwnerRef, o: Identity)
    requires Match(r, o) && Parseable(o.apiVersion)
    ensures var after := EnsureOwnerRef([r], Generate(o));
            && |after| == 1 && Match(after[0], o)
            && after[0].uid == o.uid && after[0].apiVersion == o.apiVersion && after[0].kind == r.kind && after[0].name == r.name
  {
  }

  predicate OwnedBy(owners: seq<OwnerRef>, o: Identity) {
    exists r :: r in owners && Match(r, o)
  }

  /** An object recognises the reference generated for it exactly when its API version can be parsed, and then
      it recognises just those references that EnsureOwnerRef takes for the same, whatever UID and version. */
  lemma MatchAgreesWithEnsure(r: OwnerRef, o: Identity)
    ensures Match(Generate(o), o) <==> Parseable(o.apiVersion)
    ensures Parseable(o.apiVersion) ==> (Match(r, o) <==> SameReferent(r, Generate(o)))
  {
  }

  /** After its reference is ensured an object is an owner, and nobody stops being one. */
  lemma EnsureMakesOwner(owners: seq<OwnerRef>, o: Identity, p: Identity)
    requires Parseable(o.apiVersion)
    ensures OwnedBy(EnsureOwnerRef(owners, Generate(o)), o)
    ensures OwnedBy(owners, p) ==> OwnedBy(EnsureOwnerRef(owners, Generate(o)), p)
  {
    EnsureKeepsOthers(owners, Generate(o));
    var after := EnsureOwnerRef(owners, Generate(o));
    assert Generate(o) in after && Match(Generate(o), o);
    if OwnedBy(owners, p) {
      var r :| r in owners && Match(r, p);
      if SameReferent(r, Generate(o)) {
        assert Match(Generate(o), p);
      } else {
        assert r in after;
      }
    }
  }

  /** Nobody of another name gains or loses by it. */
  lemma OtherOwner(owners: seq<OwnerRef>, o: Identity, p: Identity)
    requires o.name != p.name
    ensures OwnedBy(EnsureOwnerRef(owners, Generate(o)), p) <==> OwnedBy(owners, p)
  {
    EnsureKeepsOthers(owners, Generate(o));
    if OwnedBy(owners, p) {
      var r :| r in owners && Match(r, p);
      assert r in EnsureOwnerRef(owners, Generate(o));
    }
  }

  // ---------- listing what is owned ----------

  /** A listed object: the caller keeps a pointer to its own copy. */
  class Listed<V> {
    var value: V

    constructor (value: V)
      ensures this.value == value
    {
      this.value := value;
    }
  }

  function Owned<V>(items: seq<(seq<OwnerRef>, V)>, o: Identity): seq<V> {
    if items == [] then []
    else
      var rest := Owned(items[..|items| - 1], o);
      var last := items[|items| - 1];
      if OwnedBy(last.0, o) then rest + [last.1] else rest
  }

  /** What is listed is what is owned: nothing missing, nothing foreign. */
  lemma {:induction false} OwnedIsExact<V>(items: seq<(seq<OwnerRef>, V)>, o: Identity)
    ensures forall v :: v in Owned(items, o) <==> exists i :: 0 <= i < |items| && OwnedBy(items[i].0, o) && items[i].1 == v
  {
    if items != [] {
      var front, last := items[..|items| - 1], items[|items| - 1];
      OwnedIsExact(front, o);
      forall v
        ensures v in Owned(items, o) <==> exists i :: 0 <= i < |items| && OwnedBy(items[i].0, o) && items[i].1 == v
      {
        if v in Owned(front, o) {
          var i :| 0 <= i < |front| && OwnedBy(front[i].0, o) && front[i].1 == v;
          assert items[i] == front[i];
        }
        if i :| 0 <= i < |items| && OwnedBy(items[i].0, o) && items[i].1 == v {
          if i < |front| {
            assert front[i] == items[i];
          }
        }
      }
    }
  }

  /** It is listed in order, once for each time it is there. */
  lemma {:induction false} OwnedInOrder<V>(a: seq<(seq<OwnerRef>, V)>, b: seq<(seq<OwnerRef>, V)>, o: Identity)
    ensures Owned(a + b, o) == Owned(a, o) + Owned(b, o)
    ensures |a| == 1 ==> Owned(a, o) == if OwnedBy(a[0].0, o) then [a[0].1] else []
  {
    if b == [] {
      assert a + b == a;
    } else {
      assert (a + b)[..|a + b| - 1] == a + b[..|b| - 1];
      OwnedInOrder(a, b[..|b| - 1], o);
    }
    assert |a| == 1 ==> a[..0] == [];
  }

  function Values<V>(owned: seq<Listed<V>>): seq<V>
    reads owned
  {
    seq(|owned|, i requires 0 <= i < |owned| reads owned => owned[i].value)
  }

  /** The inner loop over the references of one object, left at the first match. */
  method FindMatch(refs: seq<OwnerRef>, o: Identity) returns (found: bool)
    ensures found <==> OwnedBy(refs, o)
  {
    found := false;
    for j := 0 to |refs|
      invariant forall k :: 0 <= k < j ==> !Match(refs[k], o)
      invariant !found
    {
      if Match(refs[j], o) {
        found := true;
        break;
      }
    }
  }

  /** getOwnedOpenStackNodeImageReleases: the owned items, in list order, each as a pointer of its own. */
  method GetOwned<V>(items: seq<(seq<OwnerRef>, V)>, o: Identity) returns (owned: seq<Listed<V>>)
    ensures fresh(set l | l in owned)
    ensures forall i, j :: 0 <= i < j < |owned| ==> owned[i] != owned[j]
    ensures Values(owned) == Owned(items, o)
  {
    owned := [];
    for i := 0 to |items|
      invariant fresh(set l | l in owned)
      invariant forall i, j :: 0 <= i < j < |owned| ==> owned[i] != owned[j]
      invariant Values(owned) == Owned(items[..i], o)
    {
      var (refs, value) := items[i];
      assert items[..i + 1][..i] == items[..i];
      var found := FindMatch(refs, o);
      if found {
        var pointer := new Listed(value);
        owned := owned + [pointer];
      }
    }
    assert items[..|items|] == items;
  }
}
