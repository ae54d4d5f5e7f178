/** Which entries of the tree have a child map, over whole runs of changes.  An entry gets one only when
    the tree is built: no change that returns normally gives a map to an entry that has none, so the
    first key below such an entry panics, whatever has happened in between. */
module ChildMaps {
  import opened Wrappers
  import opened Keys
  import opened BucketMap
  import opened Build
  import opened BuildLaws
  import opened LocalStorage
  import opened Paths

  /** A place in the tree. */
  datatype Spot = Spot(bucket: string, path: seq<string>)

  predicate EntryMap(e: KeyEntry, path: seq<string>) {
    Find(e, path).Some? && Find(e, path).value.keys.Some?
  }

  /** The place is live and its entry has a child map. */
  predicate WithMap(t: Tree, at: Spot) {
    at.bucket in t && EntryMap(t[at.bucket], at.path)
  }

  predicate Live(t: Tree, at: Spot) {
    View(t, at.bucket, at.path).Some?
  }

  /** Where the entry that is at `at` after a change was before it; None if the change announced it, or
      left nothing there. */
  function Origin(t: Tree, c: Change, at: Spot): Option<Spot> {
    match c
    case NewKey(b, key) => if at == Spot(b, EditPath(key)) && !Live(t, at) then None else Some(at)
    case NewBucket(b) => if at == Spot(b, []) && !Live(t, at) then None else Some(at)
    case NameBucket(from, to) =>
      if from !in t then Some(at)
      else if at.bucket == to then Some(Spot(from, at.path))
      else if at.bucket == from then None
      else Some(at)
    case NameKey(b, from, to) =>
      var source, target := EditPath(from), EditParent(from) + [to];
      if at.bucket != b || !Live(t, Spot(b, EditParent(from))) || Live(t, Spot(b, target)) then Some(at)
      else if target <= at.path then
        if at.path == target && !Live(t, Spot(b, source)) then None else Some(Spot(b, source + at.path[|target|..]))
      else if source <= at.path then None
      else Some(at)
    case DeleteKey(b, key) => if at.bucket == b && EditPath(key) <= at.path then None else Some(at)
    case DeleteBucket(b) => if at.bucket == b then None else Some(at)
    case _ => Some(at)
  }

  /** The entry's files come along, except where the change edits them; what has no origin is dead or
      announced without files. */
  lemma OriginShows(t: Tree, c: Change, at: Spot)
    requires Apply(t, c).Changed? && !EditsObjects(c)
    ensures var o, shown := Origin(t, c, at), View(Apply(t, c).tree, at.bucket, at.path);
            if o.Some? then shown == View(t, o.value.bucket, o.value.path) else shown == None || shown == Some([])
  {
    Refines(t, c, at.bucket, at.path);
    if c.NameKey? {
      OriginShowsRenamed(t, c, at);
    }
  }

  lemma OriginShowsRenamed(t: Tree, c: Change, at: Spot)
    requires c.NameKey?
    ensures var o, shown := Origin(t, c, at), FlatApply(Flat(t), c, at.bucket, at.path);
            if o.Some? then shown == View(t, o.value.bucket, o.value.path) else shown == None || shown == Some([])
  {
    var source, target := EditPath(c.from), EditParent(c.from) + [c.to];
    if at.bucket == c.bucket && Live(t, Spot(c.bucket, EditParent(c.from))) && !Live(t, Spot(c.bucket, target)) {
      if target <= at.path {
        assert at.path == target ==> source + at.path[|target|..] == source;
      }
    } else {
      assert Origin(t, c, at) == Some(at);
    }
  }

  // ---------- one change ----------

  lemma {:induction false} MapPut(e: KeyEntry, path: seq<string>, x: KeyEntry, q: seq<string>)
    requires Find(e, path).Some?
    ensures EntryMap(Put(e, path, x), q) <==> if path <= q then EntryMap(x, q[|path|..]) else EntryMap(e, q)
    decreases path
  {
    if path != [] && q != [] && q[0] == path[0] {
      MapPut(Child(e, path[0]).value, path[1..], x, q[1..]);
      assert path <= q <==> path[1..] <= q[1..] by {
        assert path == [path[0]] + path[1..] && q == [q[0]] + q[1..];
      }
      if path <= q {
        assert q[1..][|path| - 1..] == q[|path|..];
      }
    }
  }

  lemma ChildMap(e: KeyEntry, seg: string, q: seq<string>)
    ensures EntryMap(e, [seg] + q) <==> Child(e, seg).Some? && EntryMap(Child(e, seg).value, q)
    ensures EntryMap(e, []) <==> e.keys.Some?
    ensures !EntryMap(EMPTY, q)
  {
    assert ([seg] + q)[1..] == q;
  }

  lemma MapBelow(t: Tree, bucket: string, parent: seq<string>, e: KeyEntry, q: seq<string>)
    requires GetEntry(t, bucket, parent) == Some(e)
    ensures WithMap(t, Spot(bucket, parent + q)) <==> EntryMap(e, q)
    ensures Live(t, Spot(bucket, parent + q)) <==> Find(e, q).Some?
  {
    FindBelow(t[bucket], parent, q);
  }

  lemma MapObjects(t: Tree, c: Change, at: Spot)
    requires EditsObjects(c)
    ensures Apply(t, c).Changed? && (WithMap(Apply(t, c).tree, at) <==> WithMap(t, at))
  {
    var path := Walk(c.key);
    if GetEntry(t, c.bucket, path).Some? && at.bucket == c.bucket {
      var e := GetEntry(t, c.bucket, path).value;
      var x := EditObjects(e, c);
      MapPut(t[c.bucket], path, x, at.path);
      if path <= at.path {
        var q := at.path[|path|..];
        assert path + q == at.path;
        MapBelow(t, c.bucket, path, e, q);
        assert EntryMap(x, q) <==> EntryMap(e, q);
      }
    }
  }

  /** An edit of an entry's children, seen from the entry. */
  lemma MapEdited(e: KeyEntry, c: Change, q: seq<string>)
    requires EditsKeys(c) && e.keys.Some? && q != []
    ensures EntryMap(EditKeys(e, c), q) <==>
            match c
            case NewKey(_, _) => EntryMap(e, q)
            case NameKey(_, from, to) =>
              if Child(e, to).Some? then EntryMap(e, q)
              else if q[0] == to then EntryMap(e, [EditName(from)] + q[1..])
              else q[0] != EditName(from) && EntryMap(e, q)
            case DeleteKey(_, key) => q[0] != EditName(key) && EntryMap(e, q)
  {
    assert q == [q[0]] + q[1..];
    ChildMap(EditKeys(e, c), q[0], q[1..]);
    ChildMap(e, q[0], q[1..]);
    if c.NameKey? {
      ChildMap(e, EditName(c.from), q[1..]);
    }
  }

  lemma MapKeys(t: Tree, c: Change, at: Spot)
    requires EditsKeys(c) && Apply(t, c).Changed?
    ensures WithMap(Apply(t, c).tree, at) <==> Origin(t, c, at).Some? && WithMap(t, Origin(t, c, at).value)
  {
    var parent := EditParent(EditedKey(c));
    if at.bucket == c.bucket {
      if GetEntry(t, c.bucket, parent).None? {
        DeadAbove(t, c, at);
      } else {
        var e := GetEntry(t, c.bucket, parent).value;
        MapPut(t[c.bucket], parent, EditKeys(e, c), at.path);
        if parent <= at.path {
          var q := at.path[|parent|..];
          assert at.path == parent + q;
          MapBelow(t, c.bucket, parent, e, q);
          if q == [] {
            assert at.path == parent;
            AtParent(t, c, e);
          } else {
            MapKeysBelow(t, c, e, q);
          }
        } else {
          Beside(t, c, at);
        }
      }
    }
  }

  lemma DeadAbove(t: Tree, c: Change, at: Spot)
    requires EditsKeys(c) && at.bucket == c.bucket && GetEntry(t, c.bucket, EditParent(EditedKey(c))).None?
    ensures WithMap(t, at) <==> Origin(t, c, at).Some? && WithMap(t, Origin(t, c, at).value)
  {
    var parent := EditParent(EditedKey(c));
    if c.bucket in t && parent <= at.path {
      PrefixClosed(t[c.bucket], parent, at.path[|parent|..]);
      assert parent + at.path[|parent|..] == at.path;
    }
  }

  /** Places that are not below the edited entry. */
  lemma Beside(t: Tree, c: Change, at: Spot)
    requires EditsKeys(c) && !(EditParent(EditedKey(c)) <= at.path)
    ensures Origin(t, c, at) == Some(at)
  {
    var parent, name := EditParent(EditedKey(c)), EditName(EditedKey(c));
    assert !(parent + [name] <= at.path);
    assert c.NameKey? ==> !(parent + [c.to] <= at.path);
  }

  lemma AtParent(t: Tree, c: Change, e: KeyEntry)
    requires EditsKeys(c) && GetEntry(t, c.bucket, EditParent(EditedKey(c))) == Some(e) && e.keys.Some?
    ensures var at := Spot(c.bucket, EditParent(EditedKey(c))); Origin(t, c, at) == Some(at) && WithMap(t, at)
    ensures EntryMap(EditKeys(e, c), [])
  {
  }

  lemma MapKeysBelow(t: Tree, c: Change, e: KeyEntry, q: seq<string>)
    requires EditsKeys(c) && q != []
    requires GetEntry(t, c.bucket, EditParent(EditedKey(c))) == Some(e) && e.keys.Some?
    ensures var at := Spot(c.bucket, EditParent(EditedKey(c)) + q);
            EntryMap(EditKeys(e, c), q) <==> Origin(t, c, at).Some? && WithMap(t, Origin(t, c, at).value)
  {
    if c.NameKey? {
      MapRenamedBelow(t, c, e, q);
    } else {
      MapEdited(e, c, q);
      MapBelow(t, c.bucket, EditParent(EditedKey(c)), e, q);
      Starts(EditParent(EditedKey(c)), EditName(EditedKey(c)), q);
    }
  }

  lemma MapRenamedBelow(t: Tree, c: Change, e: KeyEntry, q: seq<string>)
    requires c.NameKey? && q != []
    requires GetEntry(t, c.bucket, EditParent(c.from)) == Some(e) && e.keys.Some?
    ensures var at := Spot(c.bucket, EditParent(c.from) + q);
            EntryMap(EditKeys(e, c), q) <==> Origin(t, c, at).Some? && WithMap(t, Origin(t, c, at).value)
  {
    var b, parent, name, to := c.bucket, EditParent(c.from), EditName(c.from), c.to;
    var at, target := Spot(b, parent + q), parent + [to];
    MapEdited(e, c, q);
    MapBelow(t, b, parent, e, q);
    MapBelow(t, b, parent, e, []);
    assert parent + [] == parent;
    MapBelow(t, b, parent, e, [to]);
    ChildFound(e, to);
    if Child(e, to).Some? {
      assert Origin(t, c, at) == Some(at);
    } else {
      Starts(parent, name, q);
      Starts(parent, to, q);
      if q[0] == to {
        MapBelow(t, b, parent, e, [name]);
        MapBelow(t, b, parent, e, [name] + q[1..]);
        ChildFound(e, name);
        ChildMap(e, name, q[1..]);
        assert parent + [name] + q[1..] == parent + ([name] + q[1..]);
      }
    }
  }

  lemma ChildFound(e: KeyEntry, seg: string)
    ensures Find(e, [seg]).Some? <==> Child(e, seg).Some?
  {
    ChildView(e, seg, []);
  }

  /** A change that returns normally leaves exactly the maps that were there, each where its entry is now:
      it gives none to an entry that had none, and none to one it announces. */
  lemma MapsMove(t: Tree, c: Change, at: Spot)
    requires Apply(t, c).Changed?
    ensures WithMap(Apply(t, c).tree, at) <==> Origin(t, c, at).Some? && WithMap(t, Origin(t, c, at).value)
  {
    if EditsObjects(c) {
      MapObjects(t, c, at);
    } else if EditsKeys(c) {
      MapKeys(t, c, at);
    } else {
      ChildMap(EMPTY, "", at.path);
    }
  }

  // ---------- runs ----------

  ghost function After(t: Tree, run: seq<Change>): Tree {
    if run == [] then t
    else
      var before := After(t, run[..|run| - 1]);
      match Apply(before, run[|run| - 1])
      case Changed(after) => after
      case Panicked => before
  }

  /** Every change of the run returns normally. */
  ghost predicate Returns(t: Tree, run: seq<Change>) {
    run == [] || (Returns(t, run[..|run| - 1]) && Apply(After(t, run[..|run| - 1]), run[|run| - 1]).Changed?)
  }

  /** Where the entry at `at` was before the run; None if it was announced since. */
  ghost function FirstOrigin(t: Tree, run: seq<Change>, at: Spot): Option<Spot> {
    if run == [] then Some(at)
    else
      var front := run[..|run| - 1];
      match Origin(After(t, front), run[|run| - 1], at)
      case None => None
      case Some(before) => FirstOrigin(t, front, before)
  }

  lemma {:induction false} MapsComeFromTheStart(t: Tree, run: seq<Change>, at: Spot)
    requires Returns(t, run)
    ensures WithMap(After(t, run), at) <==> FirstOrigin(t, run, at).Some? && WithMap(t, FirstOrigin(t, run, at).value)
  {
    if run != [] {
      var front, last := run[..|run| - 1], run[|run| - 1];
      MapsMove(After(t, front), last, at);
      var before := Origin(After(t, front), last, at);
      if before.Some? {
        MapsComeFromTheStart(t, front, before.value);
      }
    }
  }

  /** After any run, adding, renaming or removing a key panics exactly if the entry above the key is live
      and was announced since the start of the run, or had no child map there already. */
  lemma FirstKeyPanics(t: Tree, run: seq<Change>, c: Change)
    requires Returns(t, run) && EditsKeys(c)
    ensures var above := Spot(c.bucket, EditParent(EditedKey(c)));
            var o := FirstOrigin(t, run, above);
            Apply(After(t, run), c).Panicked? <==> Live(After(t, run), above) && !(o.Some? && WithMap(t, o.value))
  {
    var above := Spot(c.bucket, EditParent(EditedKey(c)));
    MapsComeFromTheStart(t, run, above);
    PanicsAt(After(t, run), c);
  }

  lemma PanicsAt(t: Tree, c: Change)
    requires EditsKeys(c)
    ensures var above := Spot(c.bucket, EditParent(EditedKey(c)));
            Apply(t, c).Panicked? <==> Live(t, above) && !WithMap(t, above)
  {
  }

  /** A freshly built tree has child maps exactly for the directories that have directories. */
  lemma BuiltMaps(t: Tree, root: Path, entries: seq<Entry>, docs: Docs, at: Spot)
    requires TreeMirrors(t, entries, root, docs)
    ensures WithMap(t, at) <==>
            DirAt(entries, at.bucket, at.path).Some? &&
            HasDirs(DirAt(entries, at.bucket, at.path).value)
  {
    assert BucketMirrors(Get(t, at.bucket), LastBucket(entries, at.bucket), root, docs, at.bucket);
    if at.bucket in t {
      var e := LastBucket(entries, at.bucket).value;
      assert PathMirrors(t[at.bucket], e.dir, at.bucket, root + [e.name], docs, at.path);
    }
  }

  /** Since a build: the first key below an entry panics exactly if the entry is live and is not one that
      was built from a directory with directories in it. */
  lemma FirstKeySinceBuild(t: Tree, root: Path, entries: seq<Entry>, docs: Docs, run: seq<Change>, bucket: string, key: string)
    requires TreeMirrors(t, entries, root, docs) && Returns(t, run)
    ensures var above := Spot(bucket, EditParent(key));
            var o := FirstOrigin(t, run, above);
            Apply(After(t, run), NewKey(bucket, key)).Panicked? <==>
            Live(After(t, run), above) &&
            !(o.Some? && DirAt(entries, o.value.bucket, o.value.path).Some? &&
              HasDirs(DirAt(entries, o.value.bucket, o.value.path).value))
  {
    FirstKeyPanics(t, run, NewKey(bucket, key));
    var o := FirstOrigin(t, run, Spot(bucket, EditParent(key)));
    if o.Some? {
      BuiltMaps(t, root, entries, docs, o.value);
    }
  }
}
