/** The call-by-call reconciliation of the protocol, run without interference, is the reconciliation that
    StackReconciler specifies as a whole. */
module Refinement {
  import opened Owners
  import opened Cluster
  import opened StackReconciler
  import opened Protocol

  function Round(name: string): seq<Event> {
    [Stack(name, Read), Stack(name, Write(Accepted, false))]
  }

  /** One read and one accepted write for each of n items. */
  function Rounds(name: string, n: nat): seq<Event> {
    if n == 0 then [] else Round(name) + Rounds(name, n - 1)
  }

  lemma RunsConcat(cfg: Config, w: World, es: seq<Event>, fs: seq<Event>)
    requires Possible(cfg, w, es) && Possible(cfg, Execute(cfg, w, es), fs)
    ensures Possible(cfg, w, es + fs)
    ensures Execute(cfg, w, es + fs) == Execute(cfg, Execute(cfg, w, es), fs)
    decreases |es|
  {
    if es == [] {
      assert es + fs == fs;
    } else {
      assert (es + fs)[1..] == es[1..] + fs;
      RunsConcat(cfg, Apply(cfg, w, es[0]), es[1..], fs);
    }
  }

  lemma RunsPrepend(cfg: Config, w: World, e: Event, es: seq<Event>)
    requires Legit(cfg, w, e) && Possible(cfg, Apply(cfg, w, e), es)
    ensures Possible(cfg, w, [e] + es)
    ensures Execute(cfg, w, [e] + es) == Execute(cfg, Apply(cfg, w, e), es)
  {
    assert ([e] + es)[1..] == es;
  }

  /** Only the store, the history and the one task differ. */
  ghost predicate OnlyTaskRan(w: World, w': World, name: string) {
    w' == w.(store := w'.store, log := w'.log, tasks := w'.tasks) && w'.tasks - {name} == w.tasks - {name}
    && w'.store.releases == w.store.releases
  }

  lemma Single(cfg: Config, w: World, e: Event)
    requires Legit(cfg, w, e)
    ensures Possible(cfg, w, [e]) && Execute(cfg, w, [e]) == Apply(cfg, w, e)
  {
    assert [e][1..] == [];
  }

  lemma RunOfTwo(cfg: Config, w: World, e: Event, f: Event)
    requires Legit(cfg, w, e) && Legit(cfg, Apply(cfg, w, e), f)
    ensures Possible(cfg, w, [e, f]) && Execute(cfg, w, [e, f]) == Apply(cfg, Apply(cfg, w, e), f)
  {
    Single(cfg, Apply(cfg, w, e), f);
    RunsPrepend(cfg, w, e, [f]);
    assert [e] + [f] == [e, f];
  }

  /** One round ensures the item in hand. */
  lemma OneRound(cfg: Config, w: World, name: string)
    requires name in w.tasks && w.tasks[name].read == Unread && w.tasks[name].done < |w.tasks[name].items|
    ensures Possible(cfg, w, Round(name))
    ensures var t, w' := w.tasks[name], Execute(cfg, w, Round(name));
            && OnlyTaskRan(w, w', name)
            && w'.store == EnsureOne(w.store, t.items[t.done], Generate(t.release.identity))
            && name in w'.tasks && w'.tasks[name] == DoneOne(t)
  {
    var w1 := ApplyStack(cfg, w, name, Read);
    assert LegitStack(cfg, w1, name, Write(Accepted, false));
    RunOfTwo(cfg, w, Stack(name, Read), Stack(name, Write(Accepted, false)));
    assert ApplyStack(cfg, w1, name, Write(Accepted, false)).tasks - {name} == w.tasks - {name};
  }

  lemma OneMoreEnsured(s: Store, items: seq<Item>, done: nat, owner: OwnerRef)
    requires done < |items|
    ensures EnsureAll(s, items[..done + 1], owner) == EnsureOne(EnsureAll(s, items[..done], owner), items[done], owner)
  {
    assert items[..done + 1][..done] == items[..done];
  }

  /** From w to w' the task ensured the rest of its items, by which the store is what the pass over s makes of it. */
  ghost predicate AllEnsured(w: World, w': World, name: string, s: Store)
    requires name in w.tasks
  {
    var t := w.tasks[name];
    && OnlyTaskRan(w, w', name)
    && w'.store == EnsureAll(s, t.items, Generate(t.release.identity))
    && name in w'.tasks && w'.tasks[name] == t.(done := |t.items|, lost := w'.tasks[name].lost)
    && w'.tasks[name].lost <= t.lost
  }

  /** The task ensured the items up to the one in hand. */
  ghost predicate SomeEnsured(w: World, name: string, s: Store) {
    && name in w.tasks && w.tasks[name].read == Unread && w.tasks[name].done <= |w.tasks[name].items|
    && w.store == EnsureAll(s, w.tasks[name].items[..w.tasks[name].done], Generate(w.tasks[name].release.identity))
  }

  lemma OneMore(cfg: Config, w: World, name: string, s: Store)
    requires SomeEnsured(w, name, s) && w.tasks[name].done < |w.tasks[name].items|
    ensures Possible(cfg, w, Round(name))
    ensures var w1 := Execute(cfg, w, Round(name));
            SomeEnsured(w1, name, s) && OnlyTaskRan(w, w1, name) && w1.tasks[name] == DoneOne(w.tasks[name])
  {
    var t := w.tasks[name];
    OneRound(cfg, w, name);
    OneMoreEnsured(s, t.items, t.done, Generate(t.release.identity));
  }

  lemma OneBefore(w: World, w1: World, w': World, name: string, s: Store)
    requires name in w.tasks && w.tasks[name].done < |w.tasks[name].items|
    requires OnlyTaskRan(w, w1, name) && name in w1.tasks && w1.tasks[name] == DoneOne(w.tasks[name])
    requires w.tasks[name].read == Unread && AllEnsured(w1, w', name, s)
    ensures AllEnsured(w, w', name, s)
  {
  }

  lemma RoundBefore(cfg: Config, w: World, name: string, k: nat)
    requires Possible(cfg, w, Round(name)) && Possible(cfg, Execute(cfg, w, Round(name)), Rounds(name, k))
    ensures Possible(cfg, w, Rounds(name, k + 1))
    ensures Execute(cfg, w, Rounds(name, k + 1)) == Execute(cfg, Execute(cfg, w, Round(name)), Rounds(name, k))
  {
    RunsConcat(cfg, w, Round(name), Rounds(name, k));
  }

  /** k more rounds are possible and ensure the rest. */
  ghost predicate Rest(cfg: Config, w: World, name: string, s: Store, k: nat)
    requires name in w.tasks
  {
    Possible(cfg, w, Rounds(name, k)) && AllEnsured(w, Execute(cfg, w, Rounds(name, k)), name, s)
  }

  lemma NoneLeft(cfg: Config, w: World, name: string, s: Store)
    requires SomeEnsured(w, name, s) && w.tasks[name].done == |w.tasks[name].items|
    ensures Rest(cfg, w, name, s, 0)
  {
    assert w.tasks[name].items[..w.tasks[name].done] == w.tasks[name].items;
  }

  lemma RestBefore(cfg: Config, w: World, name: string, s: Store, k: nat)
    requires SomeEnsured(w, name, s) && w.tasks[name].done < |w.tasks[name].items| && Possible(cfg, w, Round(name))
    requires var w1 := Execute(cfg, w, Round(name));
             OnlyTaskRan(w, w1, name) && name in w1.tasks && w1.tasks[name] == DoneOne(w.tasks[name]) && Rest(cfg, w1, name, s, k)
    ensures Rest(cfg, w, name, s, k + 1)
  {
    var w1 := Execute(cfg, w, Round(name));
    RoundBefore(cfg, w, name, k);
    OneBefore(w, w1, Execute(cfg, w1, Rounds(name, k)), name, s);
  }

  lemma {:induction false} RoundsEnsureRest(cfg: Config, w: World, name: string, s: Store, k: nat)
    requires SomeEnsured(w, name, s) && k == |w.tasks[name].items| - w.tasks[name].done
    ensures Rest(cfg, w, name, s, k)
    decreases k
  {
    if k == 0 {
      NoneLeft(cfg, w, name, s);
    } else {
      OneMore(cfg, w, name, s);
      RoundsEnsureRest(cfg, Execute(cfg, w, Round(name)), name, s, k - 1);
      RestBefore(cfg, w, name, s, k - 1);
    }
  }

  /** The loop, from its beginning. */
  lemma RoundsEnsureAll(cfg: Config, w: World, name: string)
    requires name in w.tasks && w.tasks[name].read == Unread && w.tasks[name].done == 0
    ensures var es := Rounds(name, |w.tasks[name].items|);
            Possible(cfg, w, es) && AllEnsured(w, Execute(cfg, w, es), name, w.store)
  {
    assert w.tasks[name].items[..0] == [];
    RoundsEnsureRest(cfg, w, name, w.store, |w.tasks[name].items|);
  }

  /** A whole reconciliation without interference and without faults. */
  function WholeReconcile(name: string, items: nat): seq<Event> {
    [Stack(name, Begin)] + Rounds(name, items) + [Stack(name, Finish(true))]
  }

  lemma OneFinish(cfg: Config, w: World, name: string)
    requires LegitStack(cfg, w, name, Finish(true))
    ensures Possible(cfg, w, [Stack(name, Finish(true))])
    ensures var w' := Execute(cfg, w, [Stack(name, Finish(true))]);
            && w' == w.(store := w'.store, tasks := w.tasks - {name})
            && w'.store == PatchRelease(w.store, name, StatusAfter(w.tasks[name].release.status, Judgement(w, name), w.now))
  {
    Single(cfg, w, Stack(name, Finish(true)));
  }

  lemma RoundsAndFinish(cfg: Config, w: World, name: string)
    requires name in w.tasks && w.tasks[name].read == Unread && w.tasks[name].done == 0
    requires name in w.store.releases && w.store.releases[name] == w.tasks[name].release
    ensures var t := w.tasks[name];
            var es := Rounds(name, |t.items|) + [Stack(name, Finish(true))];
            && Possible(cfg, w, es)
            && var w' := Execute(cfg, w, es);
               var mid := EnsureAll(w.store, t.items, Generate(t.release.identity));
               var e := if AllReady(mid, t.release.identity) then ReadyNow else NotReadyYet;
               && name in mid.releases
               && w' == w.(store := w'.store, log := w'.log, tasks := w.tasks - {name})
               && w'.store == PatchRelease(mid, name, StatusAfter(t.release.status, e, w.now))
  {
    var t := w.tasks[name];
    RoundsEnsureAll(cfg, w, name);
    var rounds := Rounds(name, |t.items|);
    var w2 := Execute(cfg, w, rounds);
    OneFinish(cfg, w2, name);
    RunsConcat(cfg, w, rounds, [Stack(name, Finish(true))]);
  }

  /** It does to the objects and to the release what Reconcile is specified to do on the way out it takes. */
  lemma WholeReconcileRefines(cfg: Config, w: World, name: string)
    requires LegitStack(cfg, w, name, Begin)
    requires w.store.releases[name].identity.name == name
    ensures var r := w.store.releases[name];
            var items := Items(r, cfg.catalog[name]).value;
            var es := WholeReconcile(name, |items|);
            && Possible(cfg, w, es)
            && var w' := Execute(cfg, w, es);
               var mid := EnsureAll(w.store, items, Generate(r.identity));
               var e := if AllReady(mid, r.identity) then ReadyNow else NotReadyYet;
               && Outcome(cfg.catalog, cfg.catalog, w.store, mid, r, e)
               && w'.store == PatchRelease(mid, name, StatusAfter(r.status, e, w.now))
               && w' == w.(store := w'.store, log := w'.log)
  {
    var r := w.store.releases[name];
    var items := Items(r, cfg.catalog[name]).value;
    var w1 := ApplyStack(cfg, w, name, Begin);
    RoundsAndFinish(cfg, w1, name);
    EnsureAllKeepsReleases(w.store, items, Generate(r.identity));
    var rest := Rounds(name, |items|) + [Stack(name, Finish(true))];
    RunsPrepend(cfg, w, Stack(name, Begin), rest);
    assert [Stack(name, Begin)] + rest == WholeReconcile(name, |items|);
    assert w1.tasks - {name} == w.tasks;
  }
}
