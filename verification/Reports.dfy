/** What the changes the watcher reports make of the tree: for every kind of event below bucket level, with
    a clean name, whether the tree follows the disk. */
module Reports {
  import opened Wrappers
  import opened Keys
  import opened Names
  import N = Names
  import opened BucketMap
  import opened Paths
  import opened LocalStorage
  import opened Agreement
  import opened Skipper
  import opened Handlers
  import E = EventWatcher
  import R = RenameControl

  /** A directory below a bucket that the root's own path does not mention. */
  ghost predicate Sited(root: Path, bucket: string, dir: Path) {
    IsPath(root + [bucket]) && IsPath(dir) && !NameInRoot(root, bucket)
  }

  function Under(root: Path, bucket: string, dir: Path, name: string): Path {
    root + [bucket] + dir + [name]
  }

  function FilePlace(bucket: string, dir: Path, name: string): Place {
    Place(bucket, KeyOf(dir), name)
  }

  lemma SitedPath(root: Path, bucket: string, dir: Path, name: string)
    requires Sited(root, bucket, dir)
    ensures var path := Under(root, bucket, dir, name);
            && Front(path) == root + [bucket] + dir && Front(path) != root && FileName(path) == name
            && BucketOf(root, path) == Some(bucket) && Parent(path) != Some(root)
    ensures FromBucket(bucket, root + [bucket] + dir) == Some(KeyOf(dir))
    ensures Walk(KeyOf(dir)) == dir
  {
    var path := Under(root, bucket, dir, name);
    KeyBelow(root, bucket, dir);
    ComponentsHaveKey(dir);
    WalkKeyOf(dir);
    assert path[..|root|] == root && path[..|path| - 1] == root + [bucket] + dir;
    assert |root + [bucket] + dir| > |root|;
  }

  lemma SitedKey(root: Path, bucket: string, dir: Path, name: string)
    requires Sited(root, bucket, dir) && IsComponent(name)
    ensures FromBucket(bucket, Under(root, bucket, dir, name)) == Some(KeyOf(dir + [name]))
    ensures Walk(KeyOf(dir + [name])) == dir + [name]
    ensures EditParent(KeyOf(dir + [name])) == dir && EditName(KeyOf(dir + [name])) == name
  {
    KeyOfChild(root, bucket, dir, name);
    ComponentsHaveKey(dir + [name]);
    WalkKeyOf(dir + [name]);
    ComponentsHaveKey(dir);
    EditOf(dir, name);
  }

  /** An edit of a directory's key works in the directory above it, on its name. */
  lemma EditOf(dir: Path, name: string)
    requires HasKey(dir) && IsSegment(name)
    ensures EditParent(KeyOf(dir + [name])) == dir && EditName(KeyOf(dir + [name])) == name
  {
    if dir == [] {
      assert dir + [name] == [name];
    } else {
      assert (dir + [name])[..|dir|] == dir;
      assert Join(dir + [name]) == Join(dir) + "/" + name;
      RSplitOnceAt(Join(dir), name);
      WalkKeyOf(dir);
    }
  }

  lemma PlacesDiffer(bucket: string, dir: Path, name: string, bucket': string, dir': Path, name': string)
    requires IsPath(dir) && IsPath(dir')
    ensures FilePlace(bucket, dir, name) == FilePlace(bucket', dir', name') <==> bucket == bucket' && dir == dir' && name == name'
  {
    ComponentsHaveKey(dir);
    ComponentsHaveKey(dir');
    WalkKeyOf(dir);
    WalkKeyOf(dir');
  }

  // ---------- events ----------

  /** Events are given to the handler of their kind, and its change is told to the manager; only renames are
      told to the rename control, first that the path has gone, and then that it has come back. */
  lemma Told(root: Path, path: Path, from: Path, marks: Marks, s: E.Surroundings)
    requires path != []
    ensures E.HandleEvent(root, E.CreateFolder(path), marks, s) == E.Reported(NewDirectory(root, path, marks, s.random, s.ok), [])
    ensures E.HandleEvent(root, E.CreateFile(path), marks, s) == E.Reported(NewFile(root, path, marks, s.random, s.ok, s.rest), [])
    ensures E.HandleEvent(root, E.RenameBoth(from, path), marks, s) ==
            E.Reported(if s.isDir then RenamedDirectory(root, from, path, marks, s.ok)
                       else RenamedFile(root, from, path, marks, s.random, s.ok), [R.Decline(from)])
    ensures E.HandleEvent(root, E.RenameFrom(path), marks, s) == E.Handled([R.From(path)], [], [], marks, None)
    ensures E.HandleEvent(root, E.RenameTo(path), marks, s) == E.Handled([], [], [], marks, None)
  {
  }

  /** Removals outside the root are the end of the watcher. */
  lemma RemovedOutside(root: Path, path: Path, marks: Marks, s: E.Surroundings)
    requires !(root < path)
    ensures E.HandleEvent(root, E.RemoveFolder(Some(path)), marks, s) == E.Crashed(None)
    ensures E.HandleEvent(root, E.RemoveFile(Some(path)), marks, s) == E.Crashed(None)
  {
  }

  /** A file directly below the root is ignored. */
  lemma RootFileIgnored(root: Path, name: string, marks: Marks, s: E.Surroundings)
    ensures E.HandleEvent(root, E.CreateFile(root + [name]), marks, s) == E.Handled([], [], [], marks, None)
  {
    assert Front(root + [name]) == root;
  }

  /** When the disk refuses the rename to a clean name, nothing is reported or marked ... */
  lemma RefusedDirectory(root: Path, path: Path, marks: Marks, random: string)
    requires path != []
    ensures NewDirectory(root, path, marks, random, true).move.Some? ==> NewDirectory(root, path, marks, random, false) == Reaction(None, marks, None)
  {
  }

  lemma RefusedFile(root: Path, path: Path, marks: Marks, random: string, rest: nat)
    requires path != []
    ensures NewFile(root, path, marks, random, true, rest).move.Some? ==> NewFile(root, path, marks, random, false, rest) == Reaction(None, marks, None)
  {
  }

  lemma RefusedFileRename(root: Path, from: Path, to: Path, marks: Marks, random: string)
    requires to != []
    ensures RenamedFile(root, from, to, marks, random, true).move.Some? ==> RenamedFile(root, from, to, marks, random, false) == Reaction(None, marks, None)
  {
  }

  /** ... but for a renamed directory everything is, as if it had gone well. */
  lemma RefusedDirRename(root: Path, from: Path, to: Path, marks: Marks)
    requires to != []
    ensures var done, refused := RenamedDirectory(root, from, to, marks, true), RenamedDirectory(root, from, to, marks, false);
            && refused.move == None
            && (done.Reaction? ==> refused == done.(move := None)) && (done.Panic? ==> refused == Panic(None))
  {
  }

  // ---------- files ----------

  /** The file is shown once at its new place and no longer at its old one; everything else is as before. */
  ghost predicate FileMoved(t: Tree, t': Tree, old_: Place, new_: Place) {
    forall p :: Shown(t', p) == if p == new_ then 1 else if p == old_ then 0 else Shown(t, p)
  }

  /** A file renamed to a clean name that no mark waits for is reported under its old and its new name, in the
      directory of the new one. */
  lemma FileRenameReported(root: Path, from: Path, bucket: string, dir: Path, name: string, marks: Marks, random: string, ok: bool)
    requires Sited(root, bucket, dir) && CleanFile(name) && (bucket, KeyOf(dir), name) !in marks.objects && from != []
    ensures RenamedFile(root, from, Under(root, bucket, dir, name), marks, random, ok) ==
            Reaction(Some(NameObject(bucket, KeyOf(dir), FileName(from), name)), marks, None)
  {
    SitedPath(root, bucket, dir, name);
    FileDecision(name, random);
  }

  /** So the tree follows a renamed file exactly if it stays in its directory. */
  lemma FileRenameFollowed(t: Tree, root: Path, bucket: string, dir: Path, name: string, bucket': string, dir': Path, name': string,
                           marks: Marks, s: E.Surroundings)
    requires Sited(root, bucket, dir) && Sited(root, bucket', dir') && CleanFile(name')
    requires !s.isDir && (bucket', KeyOf(dir'), name') !in marks.objects
    requires Shown(t, FilePlace(bucket, dir, name)) == 1 && Shown(t, FilePlace(bucket', dir', name')) == 0
    ensures var h := E.HandleEvent(root, E.RenameBoth(Under(root, bucket, dir, name), Under(root, bucket', dir', name')), marks, s);
            && h.Handled? && |h.toManager| == 1 && Apply(t, h.toManager[0]).Changed?
            && (FileMoved(t, Apply(t, h.toManager[0]).tree, FilePlace(bucket, dir, name), FilePlace(bucket', dir', name'))
                <==> bucket == bucket' && dir == dir')
  {
    var from := Under(root, bucket, dir, name);
    SitedPath(root, bucket, dir, name);
    SitedPath(root, bucket', dir', name');
    FileRenameReported(root, from, bucket', dir', name', marks, s.random, s.ok);
    Told(root, Under(root, bucket', dir', name'), from, marks, s);
    FileRenamed(t, bucket', dir', name, name');
    PlacesDiffer(bucket, dir, name, bucket', dir', name);
    PlacesDiffer(bucket, dir, name, bucket', dir', name');
    var t' := Apply(t, NameObject(bucket', KeyOf(dir'), name, name')).tree;
    if bucket == bucket' && dir == dir' {
      forall p
        ensures Shown(t', p) == if p == FilePlace(bucket', dir', name') then 1 else if p == FilePlace(bucket, dir, name) then 0 else Shown(t, p)
      {
        FileRenamedAt(t, bucket', dir', name, name', p);
      }
    } else {
      FileRenamedAt(t, bucket', dir', name, name', FilePlace(bucket, dir, name));
    }
  }

  lemma FileRenamed(t: Tree, bucket: string, dir: Path, name: string, name': string)
    ensures Apply(t, NameObject(bucket, KeyOf(dir), name, name')).Changed?
  {
  }

  /** What a renaming in a directory does to every place. */
  lemma FileRenamedAt(t: Tree, bucket: string, dir: Path, name: string, name': string, p: Place)
    requires IsPath(dir)
    ensures var t', here := Apply(t, NameObject(bucket, KeyOf(dir), name, name')).tree, FilePlace(bucket, dir, name);
            && ((p.bucket != bucket || p.key != KeyOf(dir)) ==> Shown(t', p) == Shown(t, p))
            && (Shown(t, here) == 0 ==> Shown(t', p) == Shown(t, p))
            && (p.bucket == bucket && p.key == KeyOf(dir) && Shown(t, here) > 0 ==>
                  Shown(t', p) == Shown(t, p) + (if p.fileName == name' then 1 else 0) - (if p.fileName == name then 1 else 0))
  {
    ObjectShown(t, NameObject(bucket, KeyOf(dir), name, name'), p);
    ComponentsHaveKey(dir);
    WalkKeyOf(dir);
  }

  /** A file renamed to a name that has to be cleaned is renamed once more, marked, and reported from that name
      to its clean one, not from the name it had before. */
  lemma UncleanFileRenameReported(root: Path, from: Path, bucket: string, dir: Path, name: string, marks: Marks, random: string)
    requires Sited(root, bucket, dir) && HasNonDash(name) && !CleanFile(name)
    ensures var clean := SettledFile(name, random);
            && CleanedFrom(name, clean, true)
            && RenamedFile(root, from, Under(root, bucket, dir, name), marks, random, true) ==
               Reaction(Some(NameObject(bucket, KeyOf(dir), name, clean)),
                        marks.(objects := marks.objects + {(bucket, KeyOf(dir), clean)}),
                        Some(Move(Under(root, bucket, dir, name), Under(root, bucket, dir, clean))))
  {
    SitedPath(root, bucket, dir, name);
    FileDecision(name, random);
    SettledName(name, random);
  }

  /** So the tree, which does not have that name, goes on showing the file under its old one. */
  lemma UncleanFileRenameLost(t: Tree, root: Path, from: Path, bucket: string, dir: Path, name: string, marks: Marks, s: E.Surroundings, p: Place)
    requires !s.isDir && s.ok && Sited(root, bucket, dir) && HasNonDash(name) && !CleanFile(name) && Shown(t, FilePlace(bucket, dir, name)) == 0
    ensures var h := E.HandleEvent(root, E.RenameBoth(from, Under(root, bucket, dir, name)), marks, s);
            && h.Handled? && |h.toManager| == 1
            && Apply(t, h.toManager[0]).Changed? && Shown(Apply(t, h.toManager[0]).tree, p) == Shown(t, p)
  {
    UncleanFileRenameReported(root, from, bucket, dir, name, marks, s.random);
    Told(root, Under(root, bucket, dir, name), from, marks, s);
    FileRenamedAt(t, bucket, dir, name, SettledFile(name, s.random), p);
  }

  /** The name a new file ends up under. */
  function SettledFile(name: string, random: string): string {
    N.Outcome(name, NormalizeFile(name, random))
  }

  lemma NewFileReported(root: Path, bucket: string, dir: Path, name: string, marks: Marks, random: string, rest: nat)
    requires Sited(root, bucket, dir)
    ensures var r := NewFile(root, Under(root, bucket, dir, name), marks, random, true, rest);
            r.Reaction? && r.change == Some(NewObject(bucket, KeyOf(dir), Object(SettledFile(name, random), rest)))
  {
    FileDecision(name, random);
    SitedPath(root, bucket, dir, name);
  }

  lemma NewFileShown(t: Tree, bucket: string, dir: Path, obj: Object)
    requires IsPath(dir) && Shown(t, FilePlace(bucket, dir, obj.fileName)) == 0
    ensures var c, here := NewObject(bucket, KeyOf(dir), obj), FilePlace(bucket, dir, obj.fileName);
            && Apply(t, c).Changed?
            && (FileMoved(t, Apply(t, c).tree, here, here) <==> View(t, bucket, dir).Some?)
            && (View(t, bucket, dir).Some? ==> View(Apply(t, c).tree, bucket, dir) == Some(View(t, bucket, dir).value + [obj]))
  {
    var c, here := NewObject(bucket, KeyOf(dir), obj), FilePlace(bucket, dir, obj.fileName);
    ComponentsHaveKey(dir);
    WalkKeyOf(dir);
    RefinesObjects(t, c, bucket, dir);
    forall p
      ensures Shown(Apply(t, c).tree, p) == Shown(t, p) + if p == here && View(t, bucket, dir).Some? then 1 else 0
    {
      ObjectShown(t, c, p);
    }
  }

  /** A new file is shown once, under its clean name and with its own contents, exactly if the tree has its
      directory; everything else is as before. */
  lemma NewFileFollowed(t: Tree, root: Path, bucket: string, dir: Path, name: string, marks: Marks, s: E.Surroundings)
    requires s.ok && Sited(root, bucket, dir) && HasNonDash(name)
    requires Shown(t, FilePlace(bucket, dir, SettledFile(name, s.random))) == 0
    ensures var settled := SettledFile(name, s.random);
            var h := E.HandleEvent(root, E.CreateFile(Under(root, bucket, dir, name)), marks, s);
            && (if CleanFile(name) then settled == name else CleanedFrom(name, settled, true))
            && h.Handled? && |h.toManager| == 1 && Apply(t, h.toManager[0]).Changed?
            && var t', here := Apply(t, h.toManager[0]).tree, FilePlace(bucket, dir, settled);
            && (FileMoved(t, t', here, here) <==> View(t, bucket, dir).Some?)
            && (View(t, bucket, dir).Some? ==> View(t', bucket, dir) == Some(View(t, bucket, dir).value + [Object(settled, s.rest)]))
  {
    SettledName(name, s.random);
    Told(root, Under(root, bucket, dir, name), root, marks, s);
    NewFileReported(root, bucket, dir, name, marks, s.random, s.rest);
    NewFileShown(t, bucket, dir, Object(SettledFile(name, s.random), s.rest));
  }

  lemma SettledName(name: string, random: string)
    requires HasNonDash(name)
    ensures if CleanFile(name) then SettledFile(name, random) == name else CleanedFrom(name, SettledFile(name, random), true)
  {
    FileDecision(name, random);
    CleanedNames(name);
  }

  /** A removed file is looked for one directory too deep, so it stays in the tree. */
  lemma RemovedFileStays(t: Tree, root: Path, bucket: string, dir: Path, name: string, marks: Marks, s: E.Surroundings)
    requires Sited(root, bucket, dir) && IsComponent(name)
    ensures var h := E.HandleEvent(root, E.RemoveFile(Some(Under(root, bucket, dir, name))), marks, s);
            && h.Handled? && |h.toManager| == 1 && Apply(t, h.toManager[0]).Changed?
            && Shown(Apply(t, h.toManager[0]).tree, FilePlace(bucket, dir, name)) == Shown(t, FilePlace(bucket, dir, name))
  {
    RemovalReported(root, bucket, dir, name, marks, s);
    DeeperKey(dir, name);
    ObjectShown(t, DeleteObject(bucket, KeyOf(dir + [name]), name), FilePlace(bucket, dir, name));
  }

  lemma DeeperKey(dir: Path, name: string)
    requires IsPath(dir) && IsComponent(name)
    ensures KeyOf(dir + [name]) != KeyOf(dir)
  {
    ComponentsHaveKey(dir);
    ComponentsHaveKey(dir + [name]);
    WalkKeyOf(dir);
    WalkKeyOf(dir + [name]);
  }

  // ---------- directories ----------

  lemma NewKeyShown(t: Tree, bucket: string, dir: Path, name: string)
    requires EditParent(KeyOf(dir + [name])) == dir && EditName(KeyOf(dir + [name])) == name
    requires View(t, bucket, dir).Some? && View(t, bucket, dir + [name]).None?
    ensures var c := NewKey(bucket, KeyOf(dir + [name]));
            && (Apply(t, c).Panicked? <==> GetEntry(t, bucket, dir).value.keys.None?)
            && (Apply(t, c).Changed? ==>
                  forall b, path :: View(Apply(t, c).tree, b, path) ==
                                    if b == bucket && path == dir + [name] then Some([]) else View(t, b, path))
  {
    var c := NewKey(bucket, KeyOf(dir + [name]));
    if Apply(t, c).Changed? {
      forall b, path
        ensures View(Apply(t, c).tree, b, path) == if b == bucket && path == dir + [name] then Some([]) else View(t, b, path)
      {
        Refines(t, c, b, path);
      }
    }
  }

  /** A new directory with a clean name is shown, empty, if its parent has a child map; if the parent has none
      the tree panics.  Everything else is as before. */
  lemma NewDirectoryFollowed(t: Tree, root: Path, bucket: string, dir: Path, name: string, marks: Marks, s: E.Surroundings)
    requires Sited(root, bucket, dir) && IsComponent(name) && CleanDir(name)
    requires View(t, bucket, dir).Some? && View(t, bucket, dir + [name]).None?
    ensures var h := E.HandleEvent(root, E.CreateFolder(Under(root, bucket, dir, name)), marks, s);
            && h.Handled? && |h.toManager| == 1 && h.move.None? && h.marks == marks
            && (Apply(t, h.toManager[0]).Panicked? <==> GetEntry(t, bucket, dir).value.keys.None?)
            && (Apply(t, h.toManager[0]).Changed? ==>
                  forall b, path :: View(Apply(t, h.toManager[0]).tree, b, path) ==
                                    if b == bucket && path == dir + [name] then Some([]) else View(t, b, path))
  {
    SitedKey(root, bucket, dir, name);
    NewKeyShown(t, bucket, dir, name);
    NewDirectoryReported(root, bucket, dir, name, marks, s.random, s.ok);
    Told(root, Under(root, bucket, dir, name), root, marks, s);
  }

  lemma NewDirectoryReported(root: Path, bucket: string, dir: Path, name: string, marks: Marks, random: string, ok: bool)
    requires Sited(root, bucket, dir) && IsComponent(name) && CleanDir(name)
    ensures NewDirectory(root, Under(root, bucket, dir, name), marks, random, ok) ==
            Reaction(Some(NewKey(bucket, KeyOf(dir + [name]))), marks, None)
  {
    SitedPath(root, bucket, dir, name);
    SitedKey(root, bucket, dir, name);
    DirDecision(name, true, random);
  }

  lemma UncleanDirectoryReported(root: Path, bucket: string, dir: Path, name: string, marks: Marks, random: string)
    requires Sited(root, bucket, dir) && HasNonDash(name) && !CleanDir(name)
    ensures var clean := CleanName(name);
            var r := NewDirectory(root, Under(root, bucket, dir, name), marks, random, true);
            && r.Reaction? && r.move == Some(Move(Under(root, bucket, dir, name), Under(root, bucket, dir, clean)))
            && (match FromBucket(clean, Under(root, bucket, dir, clean))
                case None => r.change == None && r.marks == marks
                case Some(key) => r.change == Some(NewKey(clean, key)) && r.marks == marks.(keys := marks.keys + {(clean, key)}))
  {
    SitedPath(root, bucket, dir, name);
    DirDecision(name, true, random);
  }

  /** With a name that has to be cleaned, the new name is taken for the bucket: the tree comes to show the
      directory exactly if its clean name happens to be its bucket's. */
  lemma UncleanDirectoryLost(t: Tree, root: Path, bucket: string, dir: Path, name: string, marks: Marks, s: E.Surroundings)
    requires s.ok && Sited(root, bucket, dir) && HasNonDash(name) && !CleanDir(name) && IsComponent(CleanName(name))
    requires View(t, bucket, dir).Some? && GetEntry(t, bucket, dir).value.keys.Some? && View(t, bucket, dir + [CleanName(name)]).None?
    ensures var clean := CleanName(name);
            var h := E.HandleEvent(root, E.CreateFolder(Under(root, bucket, dir, name)), marks, s);
            && h.Handled? && h.move == Some(Move(Under(root, bucket, dir, name), Under(root, bucket, dir, clean)))
            && (|h.toManager| == 1 && Apply(t, h.toManager[0]).Changed? && View(Apply(t, h.toManager[0]).tree, bucket, dir + [clean]).Some?
                <==> clean == bucket)
  {
    var clean := CleanName(name);
    UncleanDirectoryReported(root, bucket, dir, name, marks, s.random);
    Told(root, Under(root, bucket, dir, name), root, marks, s);
    if clean == bucket {
      SitedKey(root, bucket, dir, clean);
      NewKeyShown(t, bucket, dir, clean);
    } else if FromBucket(clean, Under(root, bucket, dir, clean)).Some? {
      OtherBucketKey(t, clean, FromBucket(clean, Under(root, bucket, dir, clean)).value, bucket, dir + [clean]);
    }
  }

  lemma OtherBucketKey(t: Tree, other: string, key: string, bucket: string, path: Path)
    requires other != bucket
    ensures Apply(t, NewKey(other, key)).Changed? ==> View(Apply(t, NewKey(other, key)).tree, bucket, path) == View(t, bucket, path)
  {
    if Apply(t, NewKey(other, key)).Changed? {
      Refines(t, NewKey(other, key), bucket, path);
    }
  }

  /** The directory and all below it are shown at the new place instead of the old one; everything else is as before. */
  ghost predicate DirMoved(t: Tree, t': Tree, bucket: string, old_: Path, new_: Path) {
    forall b, path ::
      View(t', b, path) ==
      if b != bucket then View(t, b, path)
      else if new_ <= path then View(t, b, old_ + path[|new_|..])
      else if old_ <= path then None
      else View(t, b, path)
  }

  lemma DirRenameReported(root: Path, bucket: string, dir: Path, name: string, dir': Path, name': string, marks: Marks, ok: bool)
    requires Sited(root, bucket, dir) && Sited(root, bucket, dir') && IsComponent(name) && IsComponent(name') && CleanDir(name')
    requires (bucket, KeyOf(dir' + [name'])) !in marks.keys
    ensures RenamedDirectory(root, Under(root, bucket, dir, name), Under(root, bucket, dir', name'), marks, ok) ==
            Reaction(Some(NameKey(bucket, KeyOf(dir + [name]), name')), marks, None)
  {
    SitedPath(root, bucket, dir', name');
    SitedKey(root, bucket, dir, name);
    SitedKey(root, bucket, dir', name');
    DirDecision(name', false, "");
  }

  /** The tree follows a directory renamed to a clean name within its bucket exactly if it stays in its parent. */
  lemma DirRenameFollowed(t: Tree, root: Path, bucket: string, dir: Path, name: string, dir': Path, name': string, marks: Marks, s: E.Surroundings)
    requires Sited(root, bucket, dir) && Sited(root, bucket, dir') && IsComponent(name) && IsComponent(name') && CleanDir(name')
    requires s.isDir && (bucket, KeyOf(dir' + [name'])) !in marks.keys
    requires View(t, bucket, dir + [name]).Some? && View(t, bucket, dir').Some? && View(t, bucket, dir' + [name']).None?
    ensures var h := E.HandleEvent(root, E.RenameBoth(Under(root, bucket, dir, name), Under(root, bucket, dir', name')), marks, s);
            && h.Handled? && |h.toManager| == 1 && Apply(t, h.toManager[0]).Changed?
            && (DirMoved(t, Apply(t, h.toManager[0]).tree, bucket, dir + [name], dir' + [name']) <==> dir == dir')
  {
    DirRenameReported(root, bucket, dir, name, dir', name', marks, s.ok);
    Told(root, Under(root, bucket, dir', name'), Under(root, bucket, dir, name), marks, s);
    SitedKey(root, bucket, dir, name);
    DirRenamed(t, bucket, dir, name, dir', name');
  }

  lemma DirRenamed(t: Tree, bucket: string, dir: Path, name: string, dir': Path, name': string)
    requires EditParent(KeyOf(dir + [name])) == dir && EditName(KeyOf(dir + [name])) == name
    requires View(t, bucket, dir + [name]).Some? && View(t, bucket, dir').Some? && View(t, bucket, dir' + [name']).None?
    ensures var c := NameKey(bucket, KeyOf(dir + [name]), name');
            Apply(t, c).Changed? && (DirMoved(t, Apply(t, c).tree, bucket, dir + [name], dir' + [name']) <==> dir == dir')
  {
    var c := NameKey(bucket, KeyOf(dir + [name]), name');
    ParentHasMap(t, bucket, dir, name);
    if dir == dir' {
      forall b, path
        ensures View(Apply(t, c).tree, b, path) ==
                if b != bucket then View(t, b, path)
                else if dir + [name'] <= path then View(t, b, dir + [name] + path[|dir + [name']|..])
                else if dir + [name] <= path then None
                else View(t, b, path)
      {
        DirRenamedAt(t, bucket, dir, name, name', b, path);
      }
    } else {
      StrayRename(t, bucket, dir, name, dir', name');
      assert dir + [name] + (dir' + [name'])[|dir' + [name']|..] == dir + [name];
    }
  }

  lemma DirRenamedAt(t: Tree, bucket: string, dir: Path, name: string, name': string, b: string, path: Path)
    requires EditParent(KeyOf(dir + [name])) == dir && EditName(KeyOf(dir + [name])) == name
    requires View(t, bucket, dir + [name]).Some? && View(t, bucket, dir).Some? && View(t, bucket, dir + [name']).None?
    requires Apply(t, NameKey(bucket, KeyOf(dir + [name]), name')).Changed?
    ensures View(Apply(t, NameKey(bucket, KeyOf(dir + [name]), name')).tree, b, path) ==
            if b != bucket then View(t, b, path)
            else if dir + [name'] <= path then View(t, b, dir + [name] + path[|dir + [name']|..])
            else if dir + [name] <= path then None
            else View(t, b, path)
  {
    Refines(t, NameKey(bucket, KeyOf(dir + [name]), name'), b, path);
  }

  lemma ParentHasMap(t: Tree, bucket: string, dir: Path, name: string)
    requires View(t, bucket, dir + [name]).Some? && EditParent(KeyOf(dir + [name])) == dir && EditName(KeyOf(dir + [name])) == name
    ensures forall to :: Apply(t, NameKey(bucket, KeyOf(dir + [name]), to)).Changed?
    ensures Apply(t, DeleteKey(bucket, KeyOf(dir + [name]))).Changed?
  {
    ParentsLive(t, bucket, dir, [name]);
    FindBelow(t[bucket], dir, [name]);
    ChildView(Find(t[bucket], dir).value, name, []);
  }

  /** Moved to another parent, the directory does not come to be shown there. */
  lemma StrayRename(t: Tree, bucket: string, dir: Path, name: string, dir': Path, name': string)
    requires EditParent(KeyOf(dir + [name])) == dir && EditName(KeyOf(dir + [name])) == name && dir != dir'
    requires Apply(t, NameKey(bucket, KeyOf(dir + [name]), name')).Changed?
    requires View(t, bucket, dir').Some? && View(t, bucket, dir' + [name']).None?
    ensures View(Apply(t, NameKey(bucket, KeyOf(dir + [name]), name')).tree, bucket, dir' + [name']).None?
  {
    var c, target := NameKey(bucket, KeyOf(dir + [name]), name'), dir' + [name'];
    Refines(t, c, bucket, target);
    if dir + [name'] <= target {
      AboveSibling(dir, name', dir', name');
      ParentsLive(t, bucket, dir + [name'], dir'[|dir| + 1..]);
    }
  }

  /** A child of one directory that lies on the way to a child of another lies on the way to the other. */
  lemma AboveSibling(dir: Path, x: string, dir': Path, y: string)
    requires dir + [x] <= dir' + [y] && dir != dir'
    ensures dir + [x] <= dir' && dir + [x] + dir'[|dir| + 1..] == dir'
  {
    var p, q := dir + [x], dir' + [y];
    assert p[..|p| - 1] == dir && q[..|q| - 1] == dir';
    assert p != q;
    assert dir'[..|p|] == q[..|p|] == p;
  }

  /** The same for a name that has to be cleaned; the directory is shown under the clean name. */
  lemma UncleanDirRenameFollowed(t: Tree, root: Path, bucket: string, dir: Path, name: string, dir': Path, name': string, marks: Marks, s: E.Surroundings)
    requires Sited(root, bucket, dir) && Sited(root, bucket, dir') && IsComponent(name) && IsComponent(name')
    requires s.ok && s.isDir && HasNonDash(name') && !CleanDir(name')
    requires View(t, bucket, dir + [name]).Some? && View(t, bucket, dir').Some? && View(t, bucket, dir' + [CleanName(name')]).None?
    ensures var clean := CleanName(name');
            var h := E.HandleEvent(root, E.RenameBoth(Under(root, bucket, dir, name), Under(root, bucket, dir', name')), marks, s);
            && h.Handled? && h.move == Some(Move(Under(root, bucket, dir', name'), Under(root, bucket, dir', clean)))
            && |h.toManager| == 1 && Apply(t, h.toManager[0]).Changed?
            && (DirMoved(t, Apply(t, h.toManager[0]).tree, bucket, dir + [name], dir' + [clean]) <==> dir == dir')
  {
    SitedPath(root, bucket, dir', name');
    SitedKey(root, bucket, dir, name);
    SitedKey(root, bucket, dir', name');
    NestedCleaned(root, bucket, Under(root, bucket, dir, name), root + [bucket] + dir', name', KeyOf(dir + [name]), KeyOf(dir' + [name']), marks);
    Told(root, Under(root, bucket, dir', name'), Under(root, bucket, dir, name), marks, s);
    DirRenamed(t, bucket, dir, name, dir', CleanName(name'));
  }

  /** The echo of that cleaning is reported once more, and the tree, which has the clean name already, ignores it. */
  lemma SecondReportIgnored(t: Tree, bucket: string, dir: Path, name: string, clean: string, b: string, path: Path)
    requires HasKey(dir) && IsSegment(name) && View(t, bucket, dir + [clean]).Some?
    ensures var c := NameKey(bucket, KeyOf(dir + [name]), clean);
            Apply(t, c).Changed? && View(Apply(t, c).tree, b, path) == View(t, b, path)
  {
    var c := NameKey(bucket, KeyOf(dir + [name]), clean);
    EditOf(dir, name);
    ParentsLive(t, bucket, dir, [clean]);
    FindBelow(t[bucket], dir, [clean]);
    ChildView(Find(t[bucket], dir).value, clean, []);
    Refines(t, c, b, path);
  }

  /** A removed directory below a bucket goes with all below it; everything else is as before. */
  lemma RemovedDirectoryFollowed(t: Tree, root: Path, bucket: string, dir: Path, name: string, marks: Marks, s: E.Surroundings)
    requires Sited(root, bucket, dir) && IsComponent(name) && View(t, bucket, dir + [name]).Some?
    ensures var h := E.HandleEvent(root, E.RemoveFolder(Some(Under(root, bucket, dir, name))), marks, s);
            && h.Handled? && |h.toManager| == 1 && Apply(t, h.toManager[0]).Changed?
            && forall b, path :: View(Apply(t, h.toManager[0]).tree, b, path) ==
                                 if b == bucket && dir + [name] <= path then None else View(t, b, path)
  {
    SitedKey(root, bucket, dir, name);
    RemovalReported(root, bucket, dir, name, marks, s);
    DirRemoved(t, bucket, dir, name);
  }

  lemma RemovalReported(root: Path, bucket: string, dir: Path, name: string, marks: Marks, s: E.Surroundings)
    requires Sited(root, bucket, dir) && IsComponent(name)
    ensures E.HandleEvent(root, E.RemoveFolder(Some(Under(root, bucket, dir, name))), marks, s) ==
            E.Handled([], [DeleteKey(bucket, KeyOf(dir + [name]))], [], marks, None)
    ensures E.HandleEvent(root, E.RemoveFile(Some(Under(root, bucket, dir, name))), marks, s) ==
            E.Handled([], [DeleteObject(bucket, KeyOf(dir + [name]), name)], [], marks, None)
  {
    SitedPath(root, bucket, dir, name);
    SitedKey(root, bucket, dir, name);
    RemovalOf(root, Under(root, bucket, dir, name), bucket, KeyOf(dir + [name]), marks, s);
  }

  lemma RemovalOf(root: Path, path: Path, bucket: string, key: string, marks: Marks, s: E.Surroundings)
    requires path != [] && BucketOf(root, path) == Some(bucket) && Parent(path) != Some(root) && FromBucket(bucket, path) == Some(key)
    ensures E.HandleEvent(root, E.RemoveFolder(Some(path)), marks, s) == E.Handled([], [DeleteKey(bucket, key)], [], marks, None)
    ensures E.HandleEvent(root, E.RemoveFile(Some(path)), marks, s) ==
            E.Handled([], [DeleteObject(bucket, key, FileName(path))], [], marks, None)
  {
  }

  lemma DirRemoved(t: Tree, bucket: string, dir: Path, name: string)
    requires EditParent(KeyOf(dir + [name])) == dir && EditName(KeyOf(dir + [name])) == name
    requires View(t, bucket, dir + [name]).Some?
    ensures var c := DeleteKey(bucket, KeyOf(dir + [name]));
            && Apply(t, c).Changed?
            && forall b, path :: View(Apply(t, c).tree, b, path) == if b == bucket && dir + [name] <= path then None else View(t, b, path)
  {
    var c := DeleteKey(bucket, KeyOf(dir + [name]));
    ParentHasMap(t, bucket, dir, name);
    forall b, path
      ensures View(Apply(t, c).tree, b, path) == if b == bucket && dir + [name] <= path then None else View(t, b, path)
    {
      Refines(t, c, b, path);
    }
  }

  /** What is reported as removed because it never came back changes nothing: the event the watcher sends to
      itself has lost the path. */
  lemma TimedOutRemovalLost(root: Path, path: Path, marks: Marks, s: E.Surroundings, marks': Marks, s': E.Surroundings)
    requires !s.reply.NoAnswer?
    ensures var h := E.HandleEvent(root, E.RemoveAny(path), marks, s);
            && h == E.Handled([], [], [if s.reply.IsDir? then E.RemoveFolder(None) else E.RemoveFile(None)], marks, None)
            && E.HandleEvent(root, h.toSelf[0], marks', s') == E.Handled([], [], [], marks', None)
  {
  }
}
