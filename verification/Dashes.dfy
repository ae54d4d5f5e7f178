/** What one directory of dashes only does to the bucket tree, from one moment of rest to the next. */
module Dashes {
  import opened Wrappers
  import opened BucketMap
  import opened Paths
  import opened Names
  import opened Skipper
  import opened Handlers
  import opened EventWatcher
  import opened Convergence
  import R = RenameControl

  /** The events that matter, the disk, the buckets and the marks, from the making of `d` on: `dirs` are
      the directories before it and `g` is the fallback name. */
  ghost predicate Stages(root: Path, o: Outline, dirs: set<string>, d: string, g: string) {
    var clean := CleanName(g);
    && IsFallback(g) && clean !in dirs
    && (|| o == Outline([RenameBoth(At(root, d), At(root, g))], dirs + {g}, dirs + {g}, Marks({g}, {}, {}))
        || o == Outline([RenameBoth(At(root, g), At(root, clean))], dirs + {clean}, dirs + {g}, Marks({g, clean}, {}, {}))
        || o == Outline([], dirs + {clean}, dirs + {g}, Marks({g}, {}, {})))
  }

  ghost predicate Burst(root: Path, o: Outline, dirs: set<string>, d: string) {
    || o == Outline([CreateFolder(At(root, d))], dirs + {d}, dirs, NO_MARKS)
    || exists g :: Stages(root, o, dirs, d, g)
  }

  /** The first reaction: the fallback name is announced and marked, on disk it is only about to be cleaned. */
  lemma AnnouncedStage(root: Path, dirs: set<string>, d: string, s: Surroundings)
    requires AllClean(dirs) && !HasNonDash(d) && s.ok && CleanName("INVALID_NAME-" + s.random) !in dirs
    ensures var o := Outline([CreateFolder(At(root, d))], dirs + {d}, dirs, NO_MARKS);
            var h := HandleEvent(root, o.rel[0], o.marks, s);
            HandsOut(root, h) && Stages(root, Advance(o, h), dirs, d, "INVALID_NAME-" + s.random)
  {
    var g := "INVALID_NAME-" + s.random;
    ReactToDashes(root, d, NO_MARKS, s);
    FallbackName(s.random);
    BelowRoot(root, d);
    BelowRoot(root, g);
    OneChange(dirs, NewBucket(g));
    assert d !in dirs by {
      if d in dirs {
        CleanDirKept(d);
      }
    }
    assert dirs + {d} - {d} + {g} == dirs + {g} && {} + {g} == {g};
  }

  /** The second: the cleaning is reported for the dashes, a bucket the tree never had. */
  lemma CleanedStage(root: Path, dirs: set<string>, d: string, g: string, s: Surroundings)
    requires AllClean(dirs) && !HasNonDash(d) && s.ok && s.isDir && IsFallback(g) && CleanName(g) !in dirs
    ensures var o := Outline([RenameBoth(At(root, d), At(root, g))], dirs + {g}, dirs + {g}, Marks({g}, {}, {}));
            var h := HandleEvent(root, o.rel[0], o.marks, s);
            HandsOut(root, h) && Stages(root, Advance(o, h), dirs, d, g)
  {
    var clean := CleanName(g);
    FallbackUnclean(g);
    UncleanChanges(g);
    ReactToMoved(root, d, g, Marks({g}, {}, {}), s);
    BelowRoot(root, d);
    BelowRoot(root, g);
    BelowRoot(root, clean);
    OneChange(dirs + {g}, NameBucket(d, clean));
    assert d !in dirs by {
      if d in dirs {
        CleanDirKept(d);
      }
    }
    assert dirs + {g} - {g} + {clean} == dirs + {clean} && {g} + {clean} == {g, clean};
  }

  /** The third: the echo of the cleaning is skipped; the mark for the fallback name stays. */
  lemma EchoedStage(root: Path, dirs: set<string>, d: string, g: string, s: Surroundings)
    requires s.isDir && IsFallback(g) && CleanName(g) !in dirs
    ensures var clean := CleanName(g);
            var o := Outline([RenameBoth(At(root, g), At(root, clean))], dirs + {clean}, dirs + {g}, Marks({g, clean}, {}, {}));
            var h := HandleEvent(root, o.rel[0], o.marks, s);
            HandsOut(root, h) && Stages(root, Advance(o, h), dirs, d, g)
  {
    var clean := CleanName(g);
    FallbackUnclean(g);
    UncleanChanges(g);
    ReactToEcho(root, g, clean, Marks({g, clean}, {}, {}), s);
    BelowRoot(root, g);
    assert {g, clean} - {clean} == {g};
  }

  lemma BurstAdvances(root: Path, o: Outline, dirs: set<string>, d: string, s: Surroundings)
    requires AllClean(dirs) && !HasNonDash(d) && Burst(root, o, dirs, d) && o.rel != []
    requires s.ok && CleanName("INVALID_NAME-" + s.random) !in o.dirs
    requires o.rel[0].RenameBoth? ==> (s.isDir <==> OnDisk(root, o.dirs, o.rel[0].to))
    ensures var h := HandleEvent(root, o.rel[0], o.marks, s); HandsOut(root, h) && Burst(root, Advance(o, h), dirs, d)
  {
    var h := HandleEvent(root, o.rel[0], o.marks, s);
    if o.rel[0].CreateFolder? {
      AnnouncedStage(root, dirs, d, s);
    } else {
      var g :| Stages(root, o, dirs, d, g);
      BelowRoot(root, g);
      BelowRoot(root, CleanName(g));
      if o.rel == [RenameBoth(At(root, d), At(root, g))] && o.dirs == dirs + {g} {
        CleanedStage(root, dirs, d, g, s);
      } else {
        EchoedStage(root, dirs, d, g, s);
      }
      assert Stages(root, Advance(o, h), dirs, d, g);
    }
  }

  lemma BurstKeeps(root: Path, w: World, w': World, k: Ledger, dirs: set<string>, d: string)
    requires AllClean(dirs) && !HasNonDash(d) && Inv(root, w, k) && Burst(root, Outlined(w), dirs, d) && Internal(root, w, w')
    ensures Burst(root, Outlined(w'), dirs, d)
  {
    if Deliver(w, w') {
      DeliverKeeps(root, w, w');
    } else if Manage(w, w') {
      ManageKeeps(root, w, w');
    } else if Control(w, w') {
      ControlKeeps(root, w, w');
    } else {
      var random, rest :| Free(w, random) && WatchWith(root, w, w', random, rest);
      if Matters(w.inbox[0]) {
        First(root, w, k);
        BurstAdvances(root, Outlined(w), dirs, d, Around(root, w, w.inbox[0], random, rest));
        var k' := MattersKeeps(root, w, k, random, rest);
      } else {
        QuietKeeps(root, w, random, rest);
      }
    }
  }

  /** The steps from the m-th world to the n-th are the actors' own. */
  ghost predicate Undisturbed(root: Path, worlds: seq<World>, m: nat, n: nat)
    requires n < |worlds|
  {
    forall i: nat :: m <= i < n ==> InternalAt(root, worlds, i)
  }

  ghost predicate InternalAt(root: Path, worlds: seq<World>, i: nat)
    requires i + 1 < |worlds|
  {
    Internal(root, worlds[i], worlds[i + 1])
  }

  lemma BurstBegins(root: Path, w: World, w': World, k: Ledger, d: string)
    requires Inv(root, w, k) && !k.made && Drained(w) && Make(root, w, w', d) && !HasNonDash(d)
    ensures AllClean(w.dirs) && Burst(root, Outlined(w'), w.dirs, d)
  {
    DrainedSettled(root, w, k);
    var e := CreateFolder(At(root, d));
    assert w'.inbox + w'.kernel == [e] && [e][1..] == [] && Relevant([e]) == [e];
  }

  lemma {:induction false} BurstLasts(root: Path, worlds: seq<World>, m: nat, n: nat, d: string)
    requires Run(root, worlds) && m < n < |worlds| && Drained(worlds[m]) && !DashesMade(root, worlds, m)
    requires Make(root, worlds[m], worlds[m + 1], d) && !HasNonDash(d) && Undisturbed(root, worlds, m + 1, n)
    ensures AllClean(worlds[m].dirs) && Burst(root, Outlined(worlds[n]), worlds[m].dirs, d)
  {
    if n == m + 1 {
      var k := RunKeeps(root, worlds, m);
      BurstBegins(root, worlds[m], worlds[m + 1], k, d);
    } else {
      BurstLasts(root, worlds, m, n - 1, d);
      var k := RunKeeps(root, worlds, n - 1);
      assert InternalAt(root, worlds, n - 1);
      BurstKeeps(root, worlds[n - 1], worlds[n], k, worlds[m].dirs, d);
    }
  }

  /** Made in a tree in order, a directory of dashes only ends as a bucket under its fallback name that
      the disk does not have, and a directory under the cleaned fallback name that the tree does not
      have; the mark for the fallback name is left over. */
  lemma AllDashDiverges(root: Path, worlds: seq<World>, m: nat, n: nat, d: string) returns (g: string)
    requires Run(root, worlds) && m < n < |worlds| && Drained(worlds[m]) && !DashesMade(root, worlds, m)
    requires Make(root, worlds[m], worlds[m + 1], d) && !HasNonDash(d) && Undisturbed(root, worlds, m + 1, n)
    requires Drained(worlds[n])
    ensures var dirs, w := worlds[m].dirs, worlds[n];
            && IsFallback(g) && g !in dirs && CleanName(g) !in dirs && CleanName(g) != g
            && w.tree.Keys == dirs + {g} && w.dirs == dirs + {CleanName(g)} && w.marks == Marks({g}, {}, {})
            && w.tree.Keys != w.dirs
  {
    BurstLasts(root, worlds, m, n, d);
    var w := worlds[n];
    assert w.inbox + w.kernel == [];
    g :| Stages(root, Outlined(w), worlds[m].dirs, d, g);
    FallbackUnclean(g);
    UncleanChanges(g);
    assert g in w.tree.Keys && g !in w.dirs;
  }

  /** One directory is made in a tree in order: at rest again, the buckets are the directories if and only
      if its name has a character that is not a dash. */
  lemma OneCreation(root: Path, worlds: seq<World>, m: nat, n: nat, d: string)
    requires Run(root, worlds) && m < n < |worlds| && Drained(worlds[m]) && !DashesMade(root, worlds, m)
    requires Make(root, worlds[m], worlds[m + 1], d) && Undisturbed(root, worlds, m + 1, n) && Drained(worlds[n])
    ensures worlds[n].tree.Keys == worlds[n].dirs <==> HasNonDash(d)
  {
    Converges(root, worlds, n);
    OneMade(root, worlds[m], worlds[m + 1], d);
    MadeStep(root, worlds, m);
    MadeStays(root, worlds, m + 1, n);
  }

  lemma {:induction false} MadeStays(root: Path, worlds: seq<World>, m: nat, n: nat)
    requires m <= n < |worlds| && Undisturbed(root, worlds, m, n)
    ensures DashesMade(root, worlds, n) <==> DashesMade(root, worlds, m)
  {
    if m < n {
      MadeStays(root, worlds, m, n - 1);
      MadeStep(root, worlds, n - 1);
      assert InternalAt(root, worlds, n - 1);
      BusyOrDrained(root, worlds[n - 1], worlds[n]);
    }
  }

  // ---------- rest is always reached ----------

  function Last(worlds: seq<World>): World
    requires worlds != []
  {
    worlds[|worlds| - 1]
  }

  lemma RunOn(root: Path, worlds: seq<World>, w: World) returns (longer: seq<World>)
    requires Run(root, worlds)
    requires Internal(root, Last(worlds), w) || External(root, Last(worlds), w)
    ensures longer == worlds + [w] && Run(root, longer)
  {
    longer := worlds + [w];
    forall i: nat | i < |longer| - 1
      ensures StepAt(root, longer, i)
    {
      assert i < |worlds| - 1 ==> StepAt(root, worlds, i);
    }
  }

  lemma OneStepMore(root: Path, worlds: seq<World>) returns (w: World)
    requires Run(root, worlds) && !Drained(Last(worlds))
    ensures Internal(root, Last(worlds), w) && Work(w) < Work(Last(worlds)) && Run(root, worlds + [w])
  {
    var k := RunKeeps(root, worlds, |worlds| - 1);
    w := NeverStuck(root, Last(worlds), k);
    Settles(root, Last(worlds), w, k);
    var longer := RunOn(root, worlds, w);
  }

  /** From every world of a run the actors alone come to rest. */
  lemma {:induction false} ComesToRest(root: Path, worlds: seq<World>) returns (longer: seq<World>)
    requires Run(root, worlds)
    ensures Run(root, longer) && worlds <= longer && Drained(Last(longer))
    ensures Undisturbed(root, longer, |worlds| - 1, |longer| - 1)
    decreases Work(Last(worlds))
  {
    if Drained(Last(worlds)) {
      longer := worlds;
    } else {
      var w := OneStepMore(root, worlds);
      assert Last(worlds + [w]) == w;
      longer := ComesToRest(root, worlds + [w]);
      UndisturbedFrom(root, worlds, w, longer);
    }
  }

  lemma UndisturbedFrom(root: Path, worlds: seq<World>, w: World, longer: seq<World>)
    requires worlds != [] && worlds + [w] <= longer && Internal(root, Last(worlds), w)
    requires Undisturbed(root, longer, |worlds|, |longer| - 1)
    ensures Undisturbed(root, longer, |worlds| - 1, |longer| - 1)
  {
    var n := |worlds| - 1;
    assert longer[n] == (worlds + [w])[n] && longer[n + 1] == (worlds + [w])[n + 1];
    assert InternalAt(root, longer, n);
  }

  /** So every directory of dashes only can be made in some run that parts tree and disk for good. */
  lemma DivergenceReached(root: Path, d: string) returns (worlds: seq<World>, g: string)
    requires IsComponent(d) && !HasNonDash(d)
    ensures Run(root, worlds) && Drained(Last(worlds))
    ensures IsFallback(g) && Last(worlds).tree.Keys == {g} && Last(worlds).dirs == {CleanName(g)} != {g}
  {
    var start := World({}, [], [], [], R.START, NO_MARKS, map[]);
    var made := start.(dirs := {d}, kernel := [CreateFolder(At(root, d))]);
    assert start.dirs + {d} == made.dirs && start.kernel + [CreateFolder(At(root, d))] == made.kernel;
    assert Make(root, start, made, d);
    worlds := RunOn(root, [start], made);
    worlds := ComesToRest(root, worlds);
    assert worlds[0] == start && worlds[1] == made;
    g := AllDashDiverges(root, worlds, 0, |worlds| - 1, d);
    assert {} + {g} == {g} && {} + {CleanName(g)} == {CleanName(g)};
  }
}
