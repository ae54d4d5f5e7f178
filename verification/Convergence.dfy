/** The watcher's actors together, at bucket level: directories are made, renamed and removed directly
    below the root, and the bucket tree follows, although the handlers rename directories themselves. */
module Convergence {
  import opened Wrappers
  import opened BucketMap
  import opened Paths
  import opened Names
  import opened Skipper
  import opened Handlers
  import opened EventWatcher
  import E = EventWatcher
  import R = RenameControl

  /** The root's directories; events on their way from the kernel; the mailboxes of watcher and
      manager; the rename control with its own mailbox and timers; the marks and the tree. */
  datatype World = World(
    dirs: set<string>, kernel: seq<Event>, inbox: seq<Event>, outbox: seq<Change>,
    control: R.Control, marks: Marks, tree: Tree)

  // ---------- the disk ----------

  function At(root: Path, name: string): Path {
    root + [name]
  }

  /** The directory a path lies in or is, directly below the root. */
  predicate OnDisk(root: Path, dirs: set<string>, path: Path) {
    root < path && path[|root|] in dirs
  }

  /** A rename of a directory below the root and the three events it causes. */
  function Rename(w: World, root: Path, from: Path, to: Path): World
    requires from != [] && to != []
  {
    w.(dirs := w.dirs - {FileName(from)} + {FileName(to)},
       kernel := w.kernel + [RenameFrom(from), RenameTo(to), RenameBoth(from, to)])
  }

  /** The name the handlers will want is the directory's own or free. */
  ghost predicate Fits(name: string, dirs: set<string>) {
    HasNonDash(name) && IsComponent(CleanName(name)) && (CleanName(name) == name || CleanName(name) !in dirs)
  }

  ghost predicate AllClean(dirs: set<string>) {
    forall d :: d in dirs ==> CleanDir(d)
  }

  // ---------- steps ----------

  /** Somebody makes a directory. */
  ghost predicate Make(root: Path, w: World, w': World, d: string) {
    && d !in w.dirs && IsComponent(d) && (HasNonDash(d) ==> Fits(d, w.dirs))
    && w' == w.(dirs := w.dirs + {d}, kernel := w.kernel + [CreateFolder(At(root, d))])
  }

  ghost predicate Shift(root: Path, w: World, w': World, a: string, b: string) {
    && a in w.dirs && b !in w.dirs && IsComponent(b) && (HasNonDash(b) ==> Fits(b, w.dirs - {a}))
    && w' == Rename(w, root, At(root, a), At(root, b))
  }

  ghost predicate Remove(root: Path, w: World, w': World, d: string) {
    d in w.dirs && w' == w.(dirs := w.dirs - {d}, kernel := w.kernel + [RemoveFolder(Some(At(root, d)))])
  }

  /** Somebody else works on the root, once everything before has been dealt with. */
  ghost predicate External(root: Path, w: World, w': World) {
    Drained(w) &&
    ((exists d :: Make(root, w, w', d)) || (exists a, b :: Shift(root, w, w', a, b)) || (exists d :: Remove(root, w, w', d)))
  }

  ghost predicate Deliver(w: World, w': World) {
    w.kernel != [] && w' == w.(kernel := w.kernel[1..], inbox := w.inbox + [w.kernel[0]])
  }

  /** What surrounds the watcher: renames succeed, the disk and the manager answer truthfully. */
  function Around(root: Path, w: World, e: Event, random: string, rest: nat): Surroundings {
    Surroundings(random, rest, true,
                 e.RenameBoth? && OnDisk(root, w.dirs, e.to),
                 if e.RemoveAny? then WhatIs(w.tree, root, e.path) else NoAnswer)
  }

  /** The world after the watcher has handled the first event of its mailbox. */
  function Watched(root: Path, w: World, h: Handled): World
    requires w.inbox != [] && h.Handled? && (h.move.Some? ==> h.move.value.from != [] && h.move.value.to != [])
  {
    var w1 := w.(inbox := w.inbox[1..] + h.toSelf, outbox := w.outbox + h.toManager, marks := h.marks,
                 control := w.control.(mailbox := w.control.mailbox + h.toControl));
    if h.move.Some? then Rename(w1, root, h.move.value.from, h.move.value.to) else w1
  }

  /** A random name is not taken, and neither is the clean name it leads to. */
  ghost predicate Free(w: World, random: string) {
    CleanName("INVALID_NAME-" + random) !in w.dirs
  }

  /** A question to the manager waits behind the changes already sent to it. */
  ghost predicate Watch(root: Path, w: World, w': World) {
    && w.inbox != [] && (w.inbox[0].RemoveAny? ==> w.outbox == [])
    && exists random, rest :: Free(w, random) && WatchWith(root, w, w', random, rest)
  }

  ghost predicate WatchWith(root: Path, w: World, w': World, random: string, rest: nat)
    requires w.inbox != []
  {
    var h := HandleEvent(root, w.inbox[0], w.marks, Around(root, w, w.inbox[0], random, rest));
    && h.Handled? && (h.move.Some? ==> h.move.value.from != [] && h.move.value.to != [])
    && w' == Watched(root, w, h)
  }

  ghost predicate Manage(w: World, w': World) {
    && w.outbox != [] && Apply(w.tree, w.outbox[0]).Changed?
    && w' == w.(tree := Apply(w.tree, w.outbox[0]).tree, outbox := w.outbox[1..])
  }

  /** Removals the rename control has posted in this step. */
  function Posted(c: R.Control, c': R.Control): seq<Event> {
    if |c'.posted| > |c.posted| then [RemoveAny(c'.posted[|c'.posted| - 1].path)] else []
  }

  ghost predicate Control(w: World, w': World) {
    R.Internal(w.control, w'.control) && w' == w.(control := w'.control, inbox := w.inbox + Posted(w.control, w'.control))
  }

  ghost predicate Internal(root: Path, w: World, w': World) {
    Deliver(w, w') || Watch(root, w, w') || Manage(w, w') || Control(w, w')
  }

  ghost predicate Drained(w: World) {
    w.kernel == [] && w.inbox == [] && w.outbox == [] && R.Drained(w.control)
  }

  /** At the start everything is in order and at rest. */
  ghost predicate Start(w: World) {
    && w.tree.Keys == w.dirs && AllClean(w.dirs) && w.marks == NO_MARKS
    && w.kernel == [] && w.inbox == [] && w.outbox == [] && w.control == R.START
  }

  ghost predicate StepAt(root: Path, worlds: seq<World>, i: nat)
    requires i < |worlds| - 1
  {
    Internal(root, worlds[i], worlds[i + 1]) || External(root, worlds[i], worlds[i + 1])
  }

  ghost predicate Run(root: Path, worlds: seq<World>) {
    worlds != [] && Start(worlds[0]) && forall i: nat :: i < |worlds| - 1 ==> StepAt(root, worlds, i)
  }

  /** Somebody makes a directory whose name is dashes only. */
  ghost predicate MakesDashes(root: Path, w: World, w': World) {
    Drained(w) && exists d :: Make(root, w, w', d) && !HasNonDash(d)
  }

  /** That has happened before the n-th world. */
  ghost predicate DashesMade(root: Path, worlds: seq<World>, n: nat)
    requires n < |worlds|
  {
    exists i: nat :: i < n && MakesDashes(root, worlds[i], worlds[i + 1])
  }

  // ---------- the invariant ----------

  /** Events that can still change something; all others are dropped by the watcher, or only make it
      talk to itself and to the rename control. */
  predicate Matters(e: Event) {
    match e
    case CreateFolder(_) => true
    case CreateFile(_) => true
    case RenameBoth(_, _) => true
    case RemoveFolder(gone) => gone.Some?
    case RemoveFile(gone) => gone.Some?
    case _ => false
  }

  ghost function Relevant(events: seq<Event>): seq<Event> {
    if events == [] then []
    else (if Matters(events[0]) then [events[0]] else []) + Relevant(events[1..])
  }

  /** What a bucket-level change makes of the buckets. */
  function Bucketed(buckets: set<string>, c: Change): set<string> {
    match c
    case NewBucket(b) => buckets + {b}
    case NameBucket(from, to) => if from in buckets then buckets - {from} + {to} else buckets
    case DeleteBucket(b) => buckets - {b}
    case _ => buckets
  }

  /** The buckets once the changes under way are applied. */
  ghost function Buckets(buckets: set<string>, changes: seq<Change>): set<string>
    decreases changes
  {
    if changes == [] then buckets else Buckets(Bucketed(buckets, changes[0]), changes[1..])
  }

  ghost predicate BucketLevel(changes: seq<Change>) {
    forall i :: 0 <= i < |changes| ==> changes[i].NewBucket? || changes[i].NameBucket? || changes[i].DeleteBucket?
  }

  /** What a world comes to: the events that matter, the directories, the buckets once the changes under
      way are applied, and the marks. */
  datatype Outline = Outline(rel: seq<Event>, dirs: set<string>, buckets: set<string>, marks: Marks)

  ghost function Outlined(w: World): Outline {
    Outline(Relevant(w.inbox + w.kernel), w.dirs, Buckets(w.tree.Keys, w.outbox), w.marks)
  }

  /** What tree and disk have lost of each other: directories the tree does not know, fallback names only
      the tree knows, and whether a directory of dashes only was ever made. */
  datatype Ledger = Ledger(lost: set<string>, orphans: set<string>, made: bool)

  ghost predicate Books(dirs: set<string>, buckets: set<string>, k: Ledger) {
    && AllClean(dirs) && k.lost <= dirs && buckets == dirs - k.lost + k.orphans
    && (forall g :: g in k.orphans ==> IsFallback(g)) && (k.orphans == {} ==> k.lost == {})
  }

  /** Marks for fallback names are never used up. */
  function Left(k: Ledger): Marks {
    Marks(k.orphans, {}, {})
  }

  /** Nothing is under way. */
  ghost predicate Settled(o: Outline, k: Ledger) {
    o.rel == [] && o.marks == Left(k) && Books(o.dirs, o.buckets, k)
  }

  ghost predicate Created(root: Path, o: Outline, k: Ledger, d: string) {
    && o.rel == [CreateFolder(At(root, d))] && o.marks == Left(k)
    && d in o.dirs && Books(o.dirs - {d}, o.buckets, k) && Fits(d, o.dirs - {d})
  }

  /** The same for a name of dashes only. */
  ghost predicate Dashes(root: Path, o: Outline, k: Ledger, d: string) {
    && o.rel == [CreateFolder(At(root, d))] && o.marks == Left(k)
    && d in o.dirs && Books(o.dirs - {d}, o.buckets, k) && !HasNonDash(d)
  }

  /** The handlers have given it the fallback name `g`, which will have to be cleaned. */
  ghost predicate Given(root: Path, o: Outline, k: Ledger, d: string, g: string) {
    && o.rel == [RenameBoth(At(root, d), At(root, g))] && o.marks == Left(k)
    && g in o.dirs && g in k.orphans && Books(o.dirs - {g}, o.buckets, k) && !HasNonDash(d) && CleanName(g) !in o.dirs
  }

  /** Somebody has renamed `a` to `b`. */
  ghost predicate Moved(root: Path, o: Outline, k: Ledger, a: string, b: string) {
    && o.rel == [RenameBoth(At(root, a), At(root, b))] && o.marks == Left(k)
    && b in o.dirs && a !in o.dirs && Books(o.dirs - {b} + {a}, o.buckets, k)
    && (HasNonDash(b) ==> Fits(b, o.dirs - {b}))
  }

  /** The handlers have renamed a directory to `b`; the mark says so. */
  ghost predicate Echoing(root: Path, o: Outline, k: Ledger, a: string, b: string) {
    && o.rel == [RenameBoth(At(root, a), At(root, b))] && o.marks == Marks(k.orphans + {b}, {}, {})
    && b in o.dirs && Books(o.dirs, o.buckets, k)
  }

  /** The handlers have given a directory its old name `b` back. */
  ghost predicate Restored(root: Path, o: Outline, k: Ledger, a: string, b: string) {
    && o.rel == [RenameBoth(At(root, a), At(root, b))] && o.marks == Left(k)
    && b in o.dirs && !HasNonDash(a) && Books(o.dirs, o.buckets, k)
  }

  ghost predicate Removed(root: Path, o: Outline, k: Ledger, d: string) {
    && o.rel == [RemoveFolder(Some(At(root, d)))] && o.marks == Left(k)
    && d !in o.dirs && Books(o.dirs + {d}, o.buckets, k)
  }

  ghost predicate Phase(root: Path, o: Outline, k: Ledger) {
    || (k.made && exists d :: Dashes(root, o, k, d))
    || ((k.made <==> k.orphans != {}) && UnderWay(root, o, k))
  }

  ghost predicate UnderWay(root: Path, o: Outline, k: Ledger) {
    || Settled(o, k)
    || (exists d :: Created(root, o, k, d))
    || (exists d, g :: Given(root, o, k, d, g))
    || (exists a, b :: Moved(root, o, k, a, b))
    || (exists a, b :: Echoing(root, o, k, a, b))
    || (exists a, b :: Restored(root, o, k, a, b))
    || (exists d :: Removed(root, o, k, d))
  }

  /** Moved-away paths are directly below the root. */
  predicate Below(root: Path, e: Event) {
    match e
    case RenameFrom(path) => Parent(path) == Some(root)
    case RemoveAny(path) => Parent(path) == Some(root)
    case _ => true
  }

  ghost predicate ControlBelow(root: Path, c: R.Control) {
    && (forall m :: m in c.mailbox && m.From? ==> Parent(m.path) == Some(root))
    && (forall i :: 0 <= i < |c.timers| ==> Parent(c.timers[i].path) == Some(root))
  }

  ghost predicate Sound(root: Path, w: World) {
    && BucketLevel(w.outbox) && R.Inv(w.control) && ControlBelow(root, w.control)
    && (forall e :: e in w.inbox ==> Below(root, e)) && (forall e :: e in w.kernel ==> Below(root, e))
  }

  ghost predicate Inv(root: Path, w: World, k: Ledger) {
    Phase(root, Outlined(w), k) && Sound(root, w)
  }

  lemma {:induction false} RelevantAppend(a: seq<Event>, b: seq<Event>)
    ensures Relevant(a + b) == Relevant(a) + Relevant(b)
  {
    if a == [] {
      assert a + b == b;
    } else {
      assert (a + b)[1..] == a[1..] + b;
      RelevantAppend(a[1..], b);
    }
  }

  lemma {:induction false} BucketsAppend(buckets: set<string>, a: seq<Change>, b: seq<Change>)
    ensures Buckets(buckets, a + b) == Buckets(Buckets(buckets, a), b)
    decreases a
  {
    if a == [] {
      assert a + b == b;
    } else {
      assert (a + b)[1..] == a[1..] + b;
      BucketsAppend(Bucketed(buckets, a[0]), a[1..], b);
    }
  }

  lemma BucketsThen(buckets: set<string>, changes: seq<Change>, c: Change)
    ensures Buckets(buckets, changes + [c]) == Bucketed(Buckets(buckets, changes), c)
  {
    BucketsAppend(buckets, changes, [c]);
    assert [c][1..] == [];
  }

  // ---------- how much there is left to do ----------

  function EventWork(e: Event): nat {
    match e
    case RenameFrom(_) => 16
    case RenameTo(_) => 1
    case RemoveAny(_) => 2
    case RemoveFolder(gone) => if gone.Some? then 2 else 1
    case RemoveFile(gone) => if gone.Some? then 2 else 1
    case CreateFolder(path) => if path != [] && CleanDir(FileName(path)) then 2 else 80
    case CreateFile(_) => 40
    case RenameBoth(_, to) => if to != [] && CleanDir(FileName(to)) then 5 else 40
  }

  ghost function EventsWork(events: seq<Event>): nat {
    if events == [] then 0 else EventWork(events[0]) + EventsWork(events[1..])
  }

  /** Events still in the kernel have to be delivered, too; a sleeping timer will post a removal. */
  ghost function Work(w: World): nat {
    EventsWork(w.inbox) + EventsWork(w.kernel) + |w.kernel| + |w.outbox| + 3 * R.Work(w.control)
  }

  /** The work that the watcher hands out. */
  ghost function Cost(h: Handled): nat
    requires h.Handled?
  {
    3 * R.MailWork(h.toControl) + |h.toManager| + EventsWork(h.toSelf) +
    match h.move
    case None => 0
    case Some(move) => EventsWork([RenameFrom(move.from), RenameTo(move.to), RenameBoth(move.from, move.to)]) + 3
  }

  lemma {:induction false} WorkAppend(a: seq<Event>, b: seq<Event>)
    ensures EventsWork(a + b) == EventsWork(a) + EventsWork(b)
  {
    if a == [] {
      assert a + b == b;
    } else {
      assert (a + b)[1..] == a[1..] + b;
      WorkAppend(a[1..], b);
    }
  }

  lemma RenameWork(from: Path, to: Path)
    ensures EventsWork([RenameFrom(from), RenameTo(to), RenameBoth(from, to)]) == 17 + EventWork(RenameBoth(from, to))
  {
    var both := [RenameBoth(from, to)];
    assert both[1..] == [] && EventsWork(both) == EventWork(both[0]);
    var tail := [RenameTo(to)] + both;
    assert tail[1..] == both && EventsWork(tail) == 1 + EventWork(both[0]);
    var events := [RenameFrom(from)] + tail;
    assert events[1..] == tail && EventsWork(events) == 17 + EventWork(both[0]);
    assert events == [RenameFrom(from), RenameTo(to), RenameBoth(from, to)];
  }

  lemma DeclineWork(path: Path)
    ensures R.MailWork([R.Decline(path)]) == 1
  {
    assert [R.Decline(path)][..0] == [];
  }

  // ---------- how the watcher reacts in each phase ----------

  lemma BelowRoot(root: Path, name: string)
    ensures root < At(root, name) && Front(At(root, name)) == root && FileName(At(root, name)) == name
    ensures BucketOf(root, At(root, name)) == Some(name) && Parent(At(root, name)) == Some(root)
  {
  }

  /** Clean names are not among marks for fallback names. */
  ghost predicate Stale(marks: Marks) {
    forall g :: g in marks.buckets ==> IsFallback(g)
  }

  lemma StaleUnclean(marks: Marks, name: string)
    requires Stale(marks) && (CleanDir(name) || !HasNonDash(name))
    ensures name !in marks.buckets
  {
    if IsFallback(name) {
      FallbackUnclean(name);
    }
  }

  /** A new directory: its bucket is announced under the clean name, which it gets on disk if it needs to. */
  lemma ReactToCreated(root: Path, d: string, marks: Marks, s: Surroundings)
    requires HasNonDash(d) && s.ok
    ensures HandleEvent(root, CreateFolder(At(root, d)), marks, s) ==
            if CleanDir(d) then Handled([], [NewBucket(d)], [], marks, None)
            else Handled([], [NewBucket(CleanName(d))], [], marks.(buckets := marks.buckets + {CleanName(d)}),
                         Some(Move(At(root, d), At(root, CleanName(d)))))
  {
    BelowRoot(root, d);
    if CleanDir(d) {
      DirDecision(d, true, s.random);
    } else {
      BucketCleaned(root, root, d, marks, s.random);
    }
  }

  /** A new directory of dashes only: it is announced under the fallback name. */
  lemma ReactToDashes(root: Path, d: string, marks: Marks, s: Surroundings)
    requires !HasNonDash(d) && s.ok
    ensures var g := "INVALID_NAME-" + s.random;
            HandleEvent(root, CreateFolder(At(root, d)), marks, s) ==
            Handled([], [NewBucket(g)], [], marks.(buckets := marks.buckets + {g}), Some(Move(At(root, d), At(root, g))))
  {
    BelowRoot(root, d);
    DirDecision(d, true, s.random);
  }

  lemma HandleMoved(root: Path, from: Path, to: Path, marks: Marks, s: Surroundings, r: Reaction)
    requires to != [] && s.isDir && r == RenamedDirectory(root, from, to, marks, s.ok)
    ensures HandleEvent(root, RenameBoth(from, to), marks, s) == E.Reported(r, [R.Decline(from)])
  {
  }

  /** What the watcher makes of a directory renamed from `a` to `b`. */
  ghost function MovedReaction(root: Path, a: string, b: string, marks: Marks): Reaction {
    if CleanDir(b) then Reaction(Some(NameBucket(a, b)), marks, None)
    else if HasNonDash(b) then
      Reaction(Some(NameBucket(a, CleanName(b))), marks.(buckets := marks.buckets + {CleanName(b)}),
               Some(Move(At(root, b), At(root, CleanName(b)))))
    else Reaction(None, marks, Some(Move(At(root, b), At(root, a))))
  }

  /** A renamed directory: report it, rename it once more, or give it its old name back. */
  lemma ReactToMoved(root: Path, a: string, b: string, marks: Marks, s: Surroundings)
    requires s.ok && s.isDir && Stale(marks)
    ensures HandleEvent(root, RenameBoth(At(root, a), At(root, b)), marks, s) ==
            E.Reported(MovedReaction(root, a, b, marks), [R.Decline(At(root, a))])
  {
    MovedReactionIs(root, a, b, marks);
    HandleMoved(root, At(root, a), At(root, b), marks, s, MovedReaction(root, a, b, marks));
  }

  lemma MovedReactionIs(root: Path, a: string, b: string, marks: Marks)
    requires Stale(marks)
    ensures RenamedDirectory(root, At(root, a), At(root, b), marks, true) == MovedReaction(root, a, b, marks)
  {
    if CleanDir(b) {
      StaleUnclean(marks, b);
      BucketKept(root, At(root, a), b, marks, true);
    } else if HasNonDash(b) {
      BucketCleaned(root, At(root, a), b, marks, "");
    } else {
      BucketRestored(root, At(root, a), b, marks);
    }
  }

  /** The echo of the handlers' own rename. */
  lemma ReactToEcho(root: Path, a: string, b: string, marks: Marks, s: Surroundings)
    requires s.isDir && CleanDir(b) && b in marks.buckets
    ensures HandleEvent(root, RenameBoth(At(root, a), At(root, b)), marks, s) ==
            Handled([R.Decline(At(root, a))], [], [], marks.(buckets := marks.buckets - {b}), None)
  {
    BucketSkipped(root, At(root, a), b, marks, s.ok);
    HandleMoved(root, At(root, a), At(root, b), marks, s, Reaction(None, marks.(buckets := marks.buckets - {b}), None));
  }

  lemma ReactToRemoved(root: Path, d: string, marks: Marks, s: Surroundings)
    ensures HandleEvent(root, RemoveFolder(Some(At(root, d))), marks, s) == Handled([], [DeleteBucket(d)], [], marks, None)
  {
    BelowRoot(root, d);
  }

  // ---------- every step keeps the invariant ----------

  lemma DeliverKeeps(root: Path, w: World, w': World)
    requires Sound(root, w) && Deliver(w, w')
    ensures Sound(root, w') && Outlined(w') == Outlined(w)
  {
    assert w'.inbox + w'.kernel == w.inbox + w.kernel;
  }

  lemma ApplyKeys(t: Tree, c: Change)
    requires c.NewBucket? || c.NameBucket? || c.DeleteBucket?
    ensures Apply(t, c).Changed? && Apply(t, c).tree.Keys == Bucketed(t.Keys, c)
  {
  }

  lemma ManageKeeps(root: Path, w: World, w': World)
    requires Sound(root, w) && Manage(w, w')
    ensures Sound(root, w') && Outlined(w') == Outlined(w)
  {
    ApplyKeys(w.tree, w.outbox[0]);
    assert w'.inbox + w'.kernel == w.inbox + w.kernel;
  }

  lemma ControlKeeps(root: Path, w: World, w': World)
    requires Sound(root, w) && Control(w, w')
    ensures Sound(root, w') && Outlined(w') == Outlined(w)
  {
    R.NextKeeps(w.control, w'.control);
    ControlStaysBelow(root, w.control, w'.control);
    PostedQuiet(w, w', Posted(w.control, w'.control));
  }

  lemma PostedQuiet(w: World, w': World, posted: seq<Event>)
    requires w'.inbox == w.inbox + posted && w'.kernel == w.kernel
    requires posted == [] || (|posted| == 1 && !Matters(posted[0]))
    ensures Relevant(w'.inbox + w'.kernel) == Relevant(w.inbox + w.kernel)
  {
    RelevantAppend(w.inbox + posted, w.kernel);
    RelevantAppend(w.inbox, posted);
    RelevantAppend(w.inbox, w.kernel);
    QuietOne(posted);
  }

  lemma QuietOne(events: seq<Event>)
    requires events == [] || (|events| == 1 && !Matters(events[0]))
    ensures Relevant(events) == []
  {
    if events != [] {
      assert events[1..] == [];
    }
  }

  lemma ControlStaysBelow(root: Path, c: R.Control, c': R.Control)
    requires R.Inv(c) && ControlBelow(root, c) && R.Internal(c, c')
    ensures ControlBelow(root, c')
    ensures forall e :: e in Posted(c, c') ==> Below(root, e)
  {
    if c.mailbox != [] && c.inserting.None? && c' == R.Receive(c) {
      ReceiveStaysBelow(root, c);
    } else if c.inserting.Some? && c' == R.Insert(c) {
    } else if i: nat :| i < |c.timers| && c.timers[i].status.Sleeping? && c' == R.Wake(c, i) {
      assert c'.posted[|c'.posted| - 1].path == c.timers[i].path;
    } else {
      var i: nat :| i < |c.timers| && c.timers[i].status.Posting? && c' == R.Finish(c, i);
    }
  }

  lemma ReceiveStaysBelow(root: Path, c: R.Control)
    requires R.Inv(c) && ControlBelow(root, c) && c.mailbox != [] && c.inserting.None?
    ensures ControlBelow(root, R.Receive(c)) && Posted(c, R.Receive(c)) == []
  {
    assert c.mailbox[0] in c.mailbox;
    assert forall m :: m in c.mailbox[1..] ==> m in c.mailbox;
  }

  lemma HearKeeps(root: Path, c: R.Control, messages: seq<R.Message>)
    requires R.Inv(c) && ControlBelow(root, c)
    requires messages == [] || (|messages| == 1 && !messages[0].Expire? && (messages[0].From? ==> Parent(messages[0].path) == Some(root)))
    ensures R.Inv(c.(mailbox := c.mailbox + messages)) && ControlBelow(root, c.(mailbox := c.mailbox + messages))
  {
    var c' := c.(mailbox := c.mailbox + messages);
    if messages == [] {
      assert c' == c;
    } else {
      assert messages == [messages[0]];
      assert R.Sent(c, c');
      R.NextKeeps(c, c');
    }
  }

  /** The events left once the first of the watcher's mailbox is handled. */
  lemma RelevantAfter(root: Path, w: World, h: Handled)
    requires w.inbox != [] && h.Handled? && (h.move.Some? ==> h.move.value.from != [] && h.move.value.to != [])
    requires Relevant(h.toSelf) == []
    ensures var w' := Watched(root, w, h);
            Relevant(w'.inbox + w'.kernel) == Relevant(w.inbox[1..] + w.kernel) +
            if h.move.Some? then [RenameBoth(h.move.value.from, h.move.value.to)] else []
    ensures Relevant(w.inbox + w.kernel) == (if Matters(w.inbox[0]) then [w.inbox[0]] else []) + Relevant(w.inbox[1..] + w.kernel)
  {
    var w', rest := Watched(root, w, h), w.inbox[1..];
    assert (w.inbox + w.kernel)[1..] == rest + w.kernel;
    RelevantAppend(rest, w.kernel);
    RelevantAppend(rest + h.toSelf, w'.kernel);
    RelevantAppend(rest, h.toSelf);
    if h.move.Some? {
      RenameEvents(h.move.value.from, h.move.value.to);
      RelevantAppend(w.kernel, [RenameFrom(h.move.value.from), RenameTo(h.move.value.to), RenameBoth(h.move.value.from, h.move.value.to)]);
    }
  }

  lemma RenameEvents(from: Path, to: Path)
    ensures Relevant([RenameFrom(from), RenameTo(to), RenameBoth(from, to)]) == [RenameBoth(from, to)]
  {
    var both := [RenameBoth(from, to)];
    assert both[1..] == [] && Relevant(both) == both;
    var tail := [RenameTo(to)] + both;
    assert tail[1..] == both && Relevant(tail) == both;
    var events := [RenameFrom(from)] + tail;
    assert events[1..] == tail && Relevant(events) == both;
    assert events == [RenameFrom(from), RenameTo(to), RenameBoth(from, to)];
  }

  /** What the watcher hands out keeps everything but the phase. */
  ghost predicate HandsOut(root: Path, h: Handled) {
    && h.Handled?
    && (h.toControl == [] || (|h.toControl| == 1 && !h.toControl[0].Expire? && (h.toControl[0].From? ==> Parent(h.toControl[0].path) == Some(root))))
    && BucketLevel(h.toManager) && |h.toManager| <= 1
    && Relevant(h.toSelf) == [] && (forall e :: e in h.toSelf ==> Below(root, e))
    && (h.move.Some? ==> Parent(h.move.value.from) == Some(root) && h.move.value.to != [])
  }

  lemma WatchedSound(root: Path, w: World, h: Handled)
    requires Sound(root, w) && w.inbox != [] && HandsOut(root, h)
    ensures Sound(root, Watched(root, w, h))
  {
    HearKeeps(root, w.control, h.toControl);
    assert forall e :: e in w.inbox[1..] ==> e in w.inbox;
  }

  /** What a world comes to once the only event that matters has been handled. */
  ghost function Advance(o: Outline, h: Handled): Outline
    requires h.Handled? && (h.move.Some? ==> h.move.value.from != [] && h.move.value.to != [])
  {
    Outline(
      if h.move.Some? then [RenameBoth(h.move.value.from, h.move.value.to)] else [],
      if h.move.Some? then o.dirs - {FileName(h.move.value.from)} + {FileName(h.move.value.to)} else o.dirs,
      Buckets(o.buckets, h.toManager),
      h.marks)
  }

  lemma WatchedAdvances(root: Path, w: World, h: Handled)
    requires Sound(root, w) && w.inbox != [] && Relevant(w.inbox[1..] + w.kernel) == [] && HandsOut(root, h)
    ensures Sound(root, Watched(root, w, h)) && Outlined(Watched(root, w, h)) == Advance(Outlined(w), h)
  {
    RelevantAfter(root, w, h);
    BucketsAppend(w.tree.Keys, w.outbox, h.toManager);
    WatchedSound(root, w, h);
  }

  /** Events that do not matter change nothing that counts. */
  lemma QuietKeeps(root: Path, w: World, random: string, rest: nat)
    requires Sound(root, w) && w.inbox != [] && !Matters(w.inbox[0])
    ensures var h := HandleEvent(root, w.inbox[0], w.marks, Around(root, w, w.inbox[0], random, rest));
            h.Handled? && h.move.None? && Cost(h) < EventWork(w.inbox[0]) && (h.toControl == [] || |h.toControl| == 1)
            && Sound(root, Watched(root, w, h)) && Outlined(Watched(root, w, h)) == Outlined(w)
  {
    var e := w.inbox[0];
    assert e in w.inbox;
    var h := HandleEvent(root, e, w.marks, Around(root, w, e, random, rest));
    ReactQuietly(root, e, w.marks, Around(root, w, e, random, rest));
    RelevantAfter(root, w, h);
    WatchedSound(root, w, h);
    var w' := Watched(root, w, h);
    assert w'.outbox == w.outbox;
  }

  lemma ReactQuietly(root: Path, e: Event, marks: Marks, s: Surroundings)
    requires !Matters(e) && Below(root, e) && (e.RemoveAny? ==> !s.reply.NoAnswer?)
    ensures var h := HandleEvent(root, e, marks, s);
            HandsOut(root, h) && h.move.None? && h.marks == marks && h.toManager == [] && Cost(h) < EventWork(e)
  {
    var h := HandleEvent(root, e, marks, s);
    match e
    case RenameFrom(path) =>
      assert [R.From(path)][..0] == [];
      assert R.MailWork(h.toControl) == 5;
    case RemoveAny(_) =>
      assert h.toSelf[1..] == [];
      QuietOne(h.toSelf);
    case _ =>
  }

  // ---------- every phase leads to the next ----------

  /** The watcher can handle the event, hands out less work than it had, and the next phase is reached. */
  ghost predicate Leads(root: Path, o: Outline, s: Surroundings, k: Ledger)
    requires o.rel != []
  {
    var h := HandleEvent(root, o.rel[0], o.marks, s);
    && HandsOut(root, h) && Cost(h) < EventWork(o.rel[0])
    && UnderWay(root, Advance(o, h), k)
  }

  lemma OneChange(buckets: set<string>, c: Change)
    ensures Buckets(buckets, [c]) == Bucketed(buckets, c) && Buckets(buckets, []) == buckets
  {
    BucketsThen(buckets, [], c);
    assert [] + [c] == [c];
  }

  lemma CleanRename(root: Path, from: string, to: string)
    ensures EventsWork([RenameFrom(At(root, from)), RenameTo(At(root, to)), RenameBoth(At(root, from), At(root, to))]) ==
            if CleanDir(to) then 22 else 57
  {
    RenameWork(At(root, from), At(root, to));
    BelowRoot(root, to);
  }

  lemma CreatedStep(root: Path, o: Outline, k: Ledger, d: string, s: Surroundings)
    requires s.ok && Created(root, o, k, d)
    ensures Leads(root, o, s, k)
  {
    var h := HandleEvent(root, o.rel[0], o.marks, s);
    ReactToCreated(root, d, o.marks, s);
    BelowRoot(root, d);
    if CleanDir(d) {
      OneChange(o.buckets, NewBucket(d));
      assert o.dirs - {d} + {d} == o.dirs;
      assert Settled(Advance(o, h), k);
    } else {
      var to := CleanName(d);
      UncleanChanges(d);
      BelowRoot(root, to);
      OneChange(o.buckets, NewBucket(to));
      CleanRename(root, d, to);
      assert Echoing(root, Advance(o, h), k, d, to);
    }
  }

  lemma DashesStep(root: Path, o: Outline, k: Ledger, d: string, s: Surroundings)
    requires s.ok && Dashes(root, o, k, d) && CleanName("INVALID_NAME-" + s.random) !in o.dirs
    ensures Leads(root, o, s, k.(orphans := k.orphans + {"INVALID_NAME-" + s.random}))
  {
    var h, g := HandleEvent(root, o.rel[0], o.marks, s), "INVALID_NAME-" + s.random;
    ReactToDashes(root, d, o.marks, s);
    FallbackName(s.random);
    UncleanChanges(g);
    BelowRoot(root, d);
    BelowRoot(root, g);
    OneChange(o.buckets, NewBucket(g));
    CleanRename(root, d, g);
    var o' := Advance(o, h);
    assert o'.dirs - {g} == o.dirs - {d};
    assert Given(root, o', k.(orphans := k.orphans + {g}), d, g);
  }

  lemma NoDashes(dirs: set<string>, buckets: set<string>, k: Ledger, d: string)
    requires Books(dirs, buckets, k) && !HasNonDash(d)
    ensures d !in dirs && d !in buckets
  {
    StaleUnclean(Left(k), d);
    if d in dirs {
      CleanDirKept(d);
    }
  }

  /** The fallback name is cleaned, but the tree is told of the dashes: it loses the directory. */
  lemma GivenStep(root: Path, o: Outline, k: Ledger, d: string, g: string, s: Surroundings)
    requires s.ok && s.isDir && Given(root, o, k, d, g)
    ensures Leads(root, o, s, k.(lost := k.lost + {CleanName(g)}))
  {
    var h, to := HandleEvent(root, o.rel[0], o.marks, s), CleanName(g);
    FallbackUnclean(g);
    UncleanChanges(g);
    ReactToMoved(root, d, g, o.marks, s);
    NoDashes(o.dirs - {g}, o.buckets, k, d);
    OneChange(o.buckets, NameBucket(d, to));
    DeclineWork(At(root, d));
    BelowRoot(root, d);
    BelowRoot(root, g);
    BelowRoot(root, to);
    CleanRename(root, g, to);
    assert Echoing(root, Advance(o, h), k.(lost := k.lost + {to}), g, to);
  }

  lemma MovedStep(root: Path, o: Outline, k: Ledger, a: string, b: string, s: Surroundings) returns (k': Ledger)
    requires s.ok && s.isDir && Moved(root, o, k, a, b)
    ensures Leads(root, o, s, k') && k' == k.(lost := k'.lost)
  {
    var h := HandleEvent(root, o.rel[0], o.marks, s);
    ReactToMoved(root, a, b, o.marks, s);
    DeclineWork(At(root, a));
    BelowRoot(root, a);
    BelowRoot(root, b);
    k' := k;
    if HasNonDash(b) {
      var to := CleanName(b);
      DirDecision(b, false, "");
      UncleanOrSame(b);
      BelowRoot(root, to);
      OneChange(o.buckets, NameBucket(a, to));
      k' := k.(lost := if a in k.lost then k.lost - {a} + {to} else k.lost);
      Renamed(o.dirs - {b}, o.buckets, k, a, to);
      if CleanDir(b) {
        assert o.dirs - {b} + {b} == o.dirs;
        assert Settled(Advance(o, h), k');
      } else {
        CleanRename(root, b, to);
        assert Echoing(root, Advance(o, h), k', b, to);
      }
    } else {
      OneChange(o.buckets, NameBucket(a, b));
      CleanRename(root, b, a);
      assert Restored(root, Advance(o, h), k, b, a);
    }
  }

  lemma UncleanOrSame(b: string)
    requires HasNonDash(b)
    ensures CleanDir(CleanName(b)) && (CleanDir(b) ==> CleanName(b) == b)
  {
    if CleanDir(b) {
      CleanDirKept(b);
    } else {
      UncleanChanges(b);
    }
  }

  /** A directory renamed from `a` to the free name `to`; one the tree does not know stays unknown. */
  lemma Renamed(dirs: set<string>, buckets: set<string>, k: Ledger, a: string, to: string)
    requires a !in dirs && to !in dirs && CleanDir(to) && Books(dirs + {a}, buckets, k)
    ensures Books(dirs + {to}, Bucketed(buckets, NameBucket(a, to)), k.(lost := if a in k.lost then k.lost - {a} + {to} else k.lost))
  {
    StaleUnclean(Left(k), a);
    if a in k.lost {
      assert a !in buckets;
    } else {
      assert a in buckets;
    }
  }

  lemma EchoStep(root: Path, o: Outline, k: Ledger, a: string, b: string, s: Surroundings)
    requires s.isDir && Echoing(root, o, k, a, b)
    ensures Leads(root, o, s, k)
  {
    var h := HandleEvent(root, o.rel[0], o.marks, s);
    ReactToEcho(root, a, b, o.marks, s);
    StaleUnclean(Left(k), b);
    DeclineWork(At(root, a));
    assert k.orphans + {b} - {b} == k.orphans;
    assert Settled(Advance(o, h), k);
  }

  lemma RestoredStep(root: Path, o: Outline, k: Ledger, a: string, b: string, s: Surroundings)
    requires s.ok && s.isDir && Restored(root, o, k, a, b)
    ensures Leads(root, o, s, k)
  {
    var h := HandleEvent(root, o.rel[0], o.marks, s);
    ReactToMoved(root, a, b, o.marks, s);
    DeclineWork(At(root, a));
    NoDashes(o.dirs, o.buckets, k, a);
    OneChange(o.buckets, NameBucket(a, b));
    assert Settled(Advance(o, h), k);
  }

  lemma RemovedStep(root: Path, o: Outline, k: Ledger, d: string, s: Surroundings)
    requires Removed(root, o, k, d)
    ensures Leads(root, o, s, k.(lost := k.lost - {d}))
  {
    var h := HandleEvent(root, o.rel[0], o.marks, s);
    ReactToRemoved(root, d, o.marks, s);
    OneChange(o.buckets, DeleteBucket(d));
    StaleUnclean(Left(k), d);
    assert o.dirs + {d} - {d} == o.dirs;
    assert Settled(Advance(o, h), k.(lost := k.lost - {d}));
  }

  /** The watcher handles every event that matters without a panic, and the next phase is reached. */
  lemma PhaseLeads(root: Path, o: Outline, k: Ledger, s: Surroundings) returns (k': Ledger)
    requires Phase(root, o, k) && o.rel != [] && s.ok && CleanName("INVALID_NAME-" + s.random) !in o.dirs
    requires o.rel[0].RenameBoth? ==> (s.isDir <==> OnDisk(root, o.dirs, o.rel[0].to))
    ensures Leads(root, o, s, k') && k'.made == k.made && (k'.made <==> k'.orphans != {})
  {
    k' := k;
    if k.made && exists d :: Dashes(root, o, k, d) {
      var d :| Dashes(root, o, k, d);
      DashesStep(root, o, k, d, s);
      k' := k.(orphans := k.orphans + {"INVALID_NAME-" + s.random});
    } else if d :| Created(root, o, k, d) {
      CreatedStep(root, o, k, d, s);
    } else if d :| Removed(root, o, k, d) {
      RemovedStep(root, o, k, d, s);
      k' := k.(lost := k.lost - {d});
    } else {
      k' := BothLeads(root, o, k, s);
    }
  }

  lemma BothLeads(root: Path, o: Outline, k: Ledger, s: Surroundings) returns (k': Ledger)
    requires UnderWay(root, o, k) && o.rel != [] && o.rel[0].RenameBoth? && s.ok
    requires s.isDir <==> OnDisk(root, o.dirs, o.rel[0].to)
    ensures Leads(root, o, s, k') && k' == k.(lost := k'.lost)
  {
    k' := k;
    var a, b :| Given(root, o, k, a, b) || Moved(root, o, k, a, b) || Echoing(root, o, k, a, b) || Restored(root, o, k, a, b);
    BelowRoot(root, b);
    if Given(root, o, k, a, b) {
      GivenStep(root, o, k, a, b, s);
      k' := k.(lost := k.lost + {CleanName(b)});
    } else if Moved(root, o, k, a, b) {
      k' := MovedStep(root, o, k, a, b, s);
    } else if Echoing(root, o, k, a, b) {
      EchoStep(root, o, k, a, b, s);
    } else {
      RestoredStep(root, o, k, a, b, s);
    }
  }

  // ---------- every step of a run keeps the invariant ----------

  /** The one event that matters comes first. */
  lemma First(root: Path, w: World, k: Ledger)
    requires Inv(root, w, k) && w.inbox != [] && Matters(w.inbox[0])
    ensures Outlined(w).rel == [w.inbox[0]] && Relevant(w.inbox[1..] + w.kernel) == []
  {
    assert (w.inbox + w.kernel)[1..] == w.inbox[1..] + w.kernel;
  }

  lemma MattersKeeps(root: Path, w: World, k: Ledger, random: string, rest: nat) returns (k': Ledger)
    requires Inv(root, w, k) && w.inbox != [] && Matters(w.inbox[0]) && Free(w, random)
    ensures var h := HandleEvent(root, w.inbox[0], w.marks, Around(root, w, w.inbox[0], random, rest));
            && HandsOut(root, h) && Cost(h) < EventWork(w.inbox[0])
            && Inv(root, Watched(root, w, h), k') && k'.made == k.made
            && Outlined(Watched(root, w, h)) == Advance(Outlined(w), h)
  {
    First(root, w, k);
    k' := PhaseLeads(root, Outlined(w), k, Around(root, w, w.inbox[0], random, rest));
    WatchedAdvances(root, w, HandleEvent(root, w.inbox[0], w.marks, Around(root, w, w.inbox[0], random, rest)));
  }

  lemma WatchKeeps(root: Path, w: World, w': World, k: Ledger) returns (k': Ledger)
    requires Inv(root, w, k) && Watch(root, w, w')
    ensures Inv(root, w', k') && k'.made == k.made
  {
    var random, rest :| Free(w, random) && WatchWith(root, w, w', random, rest);
    k' := k;
    if Matters(w.inbox[0]) {
      k' := MattersKeeps(root, w, k, random, rest);
    } else {
      QuietKeeps(root, w, random, rest);
    }
  }

  lemma InternalKeeps(root: Path, w: World, w': World, k: Ledger) returns (k': Ledger)
    requires Inv(root, w, k) && Internal(root, w, w')
    ensures Inv(root, w', k') && k'.made == k.made
  {
    k' := k;
    if Deliver(w, w') {
      DeliverKeeps(root, w, w');
    } else if Watch(root, w, w') {
      k' := WatchKeeps(root, w, w', k);
    } else if Manage(w, w') {
      ManageKeeps(root, w, w');
    } else {
      ControlKeeps(root, w, w');
    }
  }

  lemma ExternalKeeps(root: Path, w: World, w': World, k: Ledger) returns (k': Ledger)
    requires Inv(root, w, k) && External(root, w, w')
    ensures Inv(root, w', k') && (k'.made <==> k.made || MakesDashes(root, w, w'))
  {
    k' := k;
    if d :| Make(root, w, w', d) {
      MakeKeeps(root, w, w', k, d);
      OneMade(root, w, w', d);
      k' := if HasNonDash(d) then k else k.(made := true);
    } else if a, b :| Shift(root, w, w', a, b) {
      ShiftKeeps(root, w, w', k, a, b);
    } else {
      var d :| Remove(root, w, w', d);
      RemoveKeeps(root, w, w', k, d);
    }
  }

  lemma OneMade(root: Path, w: World, w': World, d: string)
    requires Drained(w) && Make(root, w, w', d)
    ensures MakesDashes(root, w, w') <==> !HasNonDash(d)
  {
    forall x | Make(root, w, w', x)
      ensures x == d
    {
      assert w'.kernel[|w.kernel|] == CreateFolder(At(root, d)) == CreateFolder(At(root, x));
      assert At(root, d)[|root|] == At(root, x)[|root|];
    }
  }

  lemma MakeKeeps(root: Path, w: World, w': World, k: Ledger, d: string)
    requires Inv(root, w, k) && Drained(w) && Make(root, w, w', d)
    ensures Inv(root, w', if HasNonDash(d) then k else k.(made := true))
  {
    DrainedSettled(root, w, k);
    var e := CreateFolder(At(root, d));
    assert w'.inbox + w'.kernel == [e] && [e][1..] == [] && Relevant([e]) == [e];
    assert w'.dirs - {d} == w.dirs;
    if HasNonDash(d) {
      assert Created(root, Outlined(w'), k, d);
    } else {
      assert Dashes(root, Outlined(w'), k.(made := true), d);
    }
  }

  lemma ShiftKeeps(root: Path, w: World, w': World, k: Ledger, a: string, b: string)
    requires Inv(root, w, k) && Drained(w) && Shift(root, w, w', a, b)
    ensures Inv(root, w', k) && !MakesDashes(root, w, w')
  {
    DrainedSettled(root, w, k);
    BelowRoot(root, a);
    BelowRoot(root, b);
    var from, to := At(root, a), At(root, b);
    RenameEvents(from, to);
    assert w'.inbox + w'.kernel == [RenameFrom(from), RenameTo(to), RenameBoth(from, to)];
    assert w'.dirs - {b} + {a} == w.dirs && w'.dirs - {b} == w.dirs - {a};
    assert Moved(root, Outlined(w'), k, a, b);
    assert w'.kernel[0] == RenameFrom(from);
  }

  lemma RemoveKeeps(root: Path, w: World, w': World, k: Ledger, d: string)
    requires Inv(root, w, k) && Drained(w) && Remove(root, w, w', d)
    ensures Inv(root, w', k) && !MakesDashes(root, w, w')
  {
    DrainedSettled(root, w, k);
    var e := RemoveFolder(Some(At(root, d)));
    assert w'.inbox + w'.kernel == [e] && [e][1..] == [] && Relevant([e]) == [e];
    assert w'.dirs + {d} == w.dirs;
    assert Removed(root, Outlined(w'), k, d);
    assert w'.kernel[0] == e;
  }

  lemma DrainedSettled(root: Path, w: World, k: Ledger)
    requires Inv(root, w, k) && Drained(w)
    ensures Outlined(w) == Outline([], w.dirs, w.tree.Keys, w.marks) && Settled(Outlined(w), k)
    ensures k.made <==> k.orphans != {}
  {
    assert w.inbox + w.kernel == [];
  }

  lemma {:induction false} RunKeeps(root: Path, worlds: seq<World>, n: nat) returns (k: Ledger)
    requires Run(root, worlds) && n < |worlds|
    ensures Inv(root, worlds[n], k) && (k.made <==> DashesMade(root, worlds, n))
  {
    if n == 0 {
      k := Ledger({}, {}, false);
      var w := worlds[0];
      assert w.inbox + w.kernel == [];
      assert Settled(Outlined(w), k);
    } else {
      var before := RunKeeps(root, worlds, n - 1);
      var w, w' := worlds[n - 1], worlds[n - 1 + 1];
      assert StepAt(root, worlds, n - 1);
      MadeStep(root, worlds, n - 1);
      if External(root, w, w') {
        k := ExternalKeeps(root, w, w', before);
      } else {
        k := InternalKeeps(root, w, w', before);
        BusyOrDrained(root, w, w');
      }
    }
  }

  lemma MadeStep(root: Path, worlds: seq<World>, n: nat)
    requires n + 1 < |worlds|
    ensures DashesMade(root, worlds, n + 1) <==> DashesMade(root, worlds, n) || MakesDashes(root, worlds[n], worlds[n + 1])
  {
  }

  lemma BusyOrDrained(root: Path, w: World, w': World)
    requires Internal(root, w, w')
    ensures !MakesDashes(root, w, w')
  {
  }

  // ---------- the main results ----------

  /** Whenever everything has been dealt with, the tree's buckets are the root's directories if and only
      if no directory of dashes only has ever been made.  In every case the directories have clean names
      and no timer is left; the buckets the disk does not have are fallback names, and exactly for them
      a mark is left. */
  lemma Converges(root: Path, worlds: seq<World>, n: nat)
    requires Run(root, worlds) && n < |worlds| && Drained(worlds[n])
    ensures var w := worlds[n];
            && (w.tree.Keys == w.dirs <==> !DashesMade(root, worlds, n))
            && AllClean(w.dirs) && w.control.tasks == map[]
            && w.marks == Marks(w.tree.Keys - w.dirs, {}, {})
            && (forall g :: g in w.tree.Keys && g !in w.dirs ==> IsFallback(g))
  {
    var k := RunKeeps(root, worlds, n);
    var w := worlds[n];
    DrainedSettled(root, w, k);
    forall g | g in k.orphans
      ensures g !in w.dirs
    {
      FallbackUnclean(g);
    }
    assert w.tree.Keys - w.dirs == k.orphans;
  }

  // ---------- everything gets dealt with ----------

  lemma WatchedWork(root: Path, w: World, h: Handled)
    requires w.inbox != [] && h.Handled? && (h.move.Some? ==> h.move.value.from != [] && h.move.value.to != [])
    requires h.toControl == [] || |h.toControl| == 1
    ensures Work(Watched(root, w, h)) + EventWork(w.inbox[0]) == Work(w) + Cost(h)
  {
    var w' := Watched(root, w, h);
    WorkAppend(w.inbox[1..], h.toSelf);
    MailAppend(w.control, h.toControl);
    assert EventsWork(w'.inbox) + EventWork(w.inbox[0]) == EventsWork(w.inbox) + EventsWork(h.toSelf);
    if h.move.Some? {
      var from, to := h.move.value.from, h.move.value.to;
      WorkAppend(w.kernel, [RenameFrom(from), RenameTo(to), RenameBoth(from, to)]);
    }
  }

  lemma MailAppend(c: R.Control, messages: seq<R.Message>)
    requires messages == [] || |messages| == 1
    ensures R.Work(c.(mailbox := c.mailbox + messages)) == R.Work(c) + R.MailWork(messages)
  {
    if messages == [] {
      assert c.mailbox + messages == c.mailbox;
    } else {
      assert (c.mailbox + messages)[..|c.mailbox|] == c.mailbox;
      assert messages[..0] == [];
    }
  }

  lemma ControlWork(root: Path, w: World, w': World)
    requires Sound(root, w) && Control(w, w')
    ensures Work(w') < Work(w)
  {
    R.DrainsAway(w.control, w'.control);
    var posted := Posted(w.control, w'.control);
    WorkAppend(w.inbox, posted);
    if posted != [] {
      assert posted[1..] == [];
    }
  }

  lemma WatchWork(root: Path, w: World, w': World, k: Ledger)
    requires Inv(root, w, k) && Watch(root, w, w')
    ensures Work(w') < Work(w)
  {
    var random, rest :| Free(w, random) && WatchWith(root, w, w', random, rest);
    if Matters(w.inbox[0]) {
      var k' := MattersKeeps(root, w, k, random, rest);
    } else {
      QuietKeeps(root, w, random, rest);
    }
    WatchedWork(root, w, HandleEvent(root, w.inbox[0], w.marks, Around(root, w, w.inbox[0], random, rest)));
  }

  /** Every step of the actors leaves less to do, so a burst of activity always ends ... */
  lemma Settles(root: Path, w: World, w': World, k: Ledger)
    requires Inv(root, w, k) && Internal(root, w, w')
    ensures Work(w') < Work(w)
  {
    if Deliver(w, w') {
      WorkAppend(w.inbox, [w.kernel[0]]);
      assert [w.kernel[0]][1..] == [];
    } else if Control(w, w') {
      ControlWork(root, w, w');
    } else if Watch(root, w, w') {
      WatchWork(root, w, w', k);
    }
  }

  lemma {:induction false} LongerThanAll(dirs: set<string>) returns (n: nat)
    ensures forall d :: d in dirs ==> |d| < n
    decreases |dirs|
  {
    n := 0;
    if d :| d in dirs {
      n := LongerThanAll(dirs - {d});
      n := if |d| < n then n else |d| + 1;
    }
  }

  /** Some random name is always free. */
  lemma FreeName(w: World) returns (random: string)
    ensures Free(w, random)
  {
    var n := LongerThanAll(w.dirs);
    random := seq(n, _ => 'a');
    TrimmedAway("INVALID_NAME-" + random);
    assert |CleanName("INVALID_NAME-" + random)| > n;
  }

  /** ... and it only ends when everything has been dealt with: nobody panics or waits for ever. */
  lemma NeverStuck(root: Path, w: World, k: Ledger) returns (w': World)
    requires Inv(root, w, k) && !Drained(w)
    ensures Internal(root, w, w')
  {
    if w.kernel != [] {
      w' := w.(kernel := w.kernel[1..], inbox := w.inbox + [w.kernel[0]]);
      assert Deliver(w, w');
    } else if w.outbox != [] {
      ApplyKeys(w.tree, w.outbox[0]);
      w' := w.(tree := Apply(w.tree, w.outbox[0]).tree, outbox := w.outbox[1..]);
      assert Manage(w, w');
    } else if w.inbox != [] {
      var random := FreeName(w);
      if Matters(w.inbox[0]) {
        var k' := MattersKeeps(root, w, k, random, 0);
      } else {
        QuietKeeps(root, w, random, 0);
      }
      w' := Watched(root, w, HandleEvent(root, w.inbox[0], w.marks, Around(root, w, w.inbox[0], random, 0)));
      assert WatchWith(root, w, w', random, 0);
      assert Watch(root, w, w');
    } else {
      R.DrainsAway(w.control, w.control);
      var next :| R.Internal(w.control, next);
      w' := w.(control := next, inbox := w.inbox + Posted(w.control, next));
      assert Control(w, w');
    }
  }
}
