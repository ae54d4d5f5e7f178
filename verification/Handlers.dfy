/** What the watcher makes of one file system event: names are normalised on disk, the renames this
    takes are marked so that their echoes are skipped, and the manager is told the change. */
module Handlers {
  import opened Wrappers
  import opened Keys
  import opened BucketMap
  import opened Paths
  import opened Names
  import S = Skipper
  import opened Skipper

  /** A rename on disk, from one path to another. */
  datatype Move = Move(from: Path, to: Path)

  /** The change to report, the marks afterwards and the rename carried out on disk; or the panic of
      an unwrap, which comes too late for a rename before it. */
  datatype Reaction = Reaction(change: Option<Change>, marks: Marks, move: Option<Move>) | Panic(move: Option<Move>)

  function Front(p: Path): Path
    requires p != []
  {
    p[..|p| - 1]
  }

  function FileName(p: Path): string
    requires p != []
  {
    p[|p| - 1]
  }

  /** hd_new_bucket_or_key_watcher; `ok` tells whether the disk carries out the rename. */
  function NewDirectory(root: Path, path: Path, marks: Marks, random: string, ok: bool): Reaction
    requires path != []
  {
    var parent := Front(path);
    match NormalizeDir(FileName(path), true, random)
    case Not(name) =>
      if parent == root then Reaction(Some(NewBucket(name)), marks, None)
      else (
        match BucketOf(root, path)
        case None => Panic(None)
        case Some(bucket) =>
          match FromBucket(bucket, path)
          case None => Reaction(None, marks, None)
          case Some(key) => Reaction(Some(NewKey(bucket, key)), marks, None))
    case Yes(from, to) =>
      if !ok then Reaction(None, marks, None)
      else
        var move := Some(Move(parent + [from], parent + [to]));
        if root == parent then Reaction(Some(NewBucket(to)), marks.(buckets := marks.buckets + {to}), move)
        else (
          match FromBucket(to, parent + [to])
          case None => Reaction(None, marks, move)
          case Some(key) => Reaction(Some(NewKey(to, key)), marks.(keys := marks.keys + {(to, key)}), move))
    case NeedRestore => Panic(None)
  }

  /** hd_new_object_watcher */
  function NewFile(root: Path, path: Path, marks: Marks, random: string, ok: bool, rest: nat): Reaction
    requires path != []
  {
    var parent := Front(path);
    if parent == root then Reaction(None, marks, None)
    else
      var d := NormalizeFile(FileName(path), random);
      if d.Yes? && !ok then Reaction(None, marks, None)
      else
        var move := if d.Yes? then Some(Move(parent + [d.from], parent + [d.to])) else None;
        match BucketOf(root, path)
        case None => Panic(move)
        case Some(bucket) =>
          match FromBucket(bucket, parent)
          case None => Panic(move)
          case Some(key) =>
            match d
            case Yes(_, to) =>
              Reaction(Some(NewObject(bucket, key, Object(to, rest))), marks.(objects := marks.objects + {(bucket, key, to)}), move)
            case Not(name) => Reaction(Some(NewObject(bucket, key, Object(name, rest))), marks, None)
            case NeedRestore => Panic(None)
  }

  /** hd_rename_path; a rename that fails is only logged. */
  function RenamedDirectory(root: Path, from: Path, to: Path, marks: Marks, ok: bool): Reaction
    requires to != []
  {
    var parent := Front(to);
    match NormalizeDir(FileName(to), false, "")
    case Not(name) =>
      if parent == root then
        if name in marks.buckets then Reaction(None, marks.(buckets := marks.buckets - {name}), None)
        else if from == [] then Panic(None)
        else Reaction(Some(NameBucket(FileName(from), name)), marks, None)
      else (
        match BucketOf(root, to)
        case None => Panic(None)
        case Some(bucket) =>
          var key, source := FromBucket(bucket, to), FromBucket(bucket, from);
          if key.None? then Panic(None)
          else if (bucket, key.value) in marks.keys then
            Reaction(None, marks.(keys := marks.keys - {(bucket, key.value)}), None)
          else if source.None? then Panic(None)
          else Reaction(Some(NameKey(bucket, source.value, name)), marks, None))
    case Yes(oldName, newName) =>
      var move := if ok then Some(Move(parent + [oldName], parent + [newName])) else None;
      if parent == root then
        if from == [] then Panic(move)
        else Reaction(Some(NameBucket(FileName(from), newName)), marks.(buckets := marks.buckets + {newName}), move)
      else (
        match BucketOf(root, to)
        case None => Panic(move)
        case Some(bucket) =>
          var key, source := FromBucket(bucket, to), FromBucket(bucket, from);
          if key.None? || source.None? then Panic(move)
          else Reaction(Some(NameKey(bucket, source.value, newName)), marks.(keys := marks.keys + {(bucket, key.value)}), move))
    case NeedRestore => Reaction(None, marks, if ok then Some(Move(to, from)) else None)
  }

  /** hd_rename_object */
  function RenamedFile(root: Path, from: Path, to: Path, marks: Marks, random: string, ok: bool): Reaction
    requires to != []
  {
    var parent := Front(to);
    match BucketOf(root, to)
    case None => Panic(None)
    case Some(bucket) =>
      match FromBucket(bucket, parent)
      case None => Panic(None)
      case Some(key) =>
        match NormalizeFile(FileName(to), random)
        case Not(name) =>
          if (bucket, key, name) in marks.objects then
            Reaction(None, marks.(objects := marks.objects - {(bucket, key, name)}), None)
          else if from == [] then Panic(None)
          else Reaction(Some(NameObject(bucket, key, FileName(from), name)), marks, None)
        case Yes(oldName, newName) =>
          if !ok then Reaction(None, marks, None)
          else Reaction(Some(NameObject(bucket, key, oldName, newName)), marks.(objects := marks.objects + {(bucket, key, newName)}),
                        Some(Move(parent + [oldName], parent + [newName])))
        case NeedRestore => Panic(None)
  }

  // ---------- echoes ----------

  /** The first reaction to a bucket directory with an unclean name: rename, mark, report. */
  lemma BucketCleaned(root: Path, from: Path, name: string, marks: Marks, random: string)
    requires HasNonDash(name) && !CleanDir(name)
    ensures var to := CleanName(name);
            var marked, move := marks.(buckets := marks.buckets + {to}), Some(Move(root + [name], root + [to]));
            && CleanDir(to)
            && NewDirectory(root, root + [name], marks, random, true) == Reaction(Some(NewBucket(to)), marked, move)
            && (from != [] ==> RenamedDirectory(root, from, root + [name], marks, true) ==
                               Reaction(Some(NameBucket(FileName(from), to)), marked, move))
  {
    assert Front(root + [name]) == root;
    DirDecision(name, true, random);
    DirDecision(name, false, "");
  }

  /** A rename to a marked bucket name consumes the mark and reports nothing. */
  lemma BucketSkipped(root: Path, from: Path, to: string, marks: Marks, ok: bool)
    requires CleanDir(to) && to in marks.buckets
    ensures RenamedDirectory(root, from, root + [to], marks, ok) == Reaction(None, marks.(buckets := marks.buckets - {to}), None)
  {
    assert Front(root + [to]) == root;
    DirDecision(to, false, "");
  }

  /** A rename to a clean bucket name without a mark is reported. */
  lemma BucketKept(root: Path, from: Path, to: string, marks: Marks, ok: bool)
    requires CleanDir(to) && to !in marks.buckets && from != []
    ensures RenamedDirectory(root, from, root + [to], marks, ok) == Reaction(Some(NameBucket(FileName(from), to)), marks, None)
  {
    assert Front(root + [to]) == root;
    DirDecision(to, false, "");
  }

  /** A rename to nothing but dashes is taken back. */
  lemma BucketRestored(root: Path, from: Path, name: string, marks: Marks)
    requires !HasNonDash(name)
    ensures RenamedDirectory(root, from, root + [name], marks, true) == Reaction(None, marks, Some(Move(root + [name], from)))
  {
    DirDecision(name, false, "");
  }

  /** A bucket directory that is renamed because it was created, or renamed, under an unclean name: the
      echo of the program's own rename reports nothing and consumes exactly the one mark, which puts
      the tracker back exactly when the same mark was not outstanding already. */
  lemma BucketEcho(root: Path, from: Path, name: string, marks: Marks, random: string, ok: bool)
    requires HasNonDash(name) && !CleanDir(name) && from != []
    ensures var path, moved := root + [name], root + [CleanName(name)];
            var created, renamed := NewDirectory(root, path, marks, random, true), RenamedDirectory(root, from, path, marks, true);
            && created.Reaction? && created.change.Some? && created.move == Some(Move(path, moved))
            && renamed.Reaction? && renamed.change.Some? && renamed.move == created.move && renamed.marks == created.marks
            && var echo := RenamedDirectory(root, path, moved, created.marks, ok);
            && echo.Reaction? && echo.change.None? && echo.move.None?
            && created.marks.buckets - echo.marks.buckets == {CleanName(name)}
            && (echo.marks == marks <==> CleanName(name) !in marks.buckets)
  {
    var to := CleanName(name);
    BucketCleaned(root, from, name, marks, random);
    BucketSkipped(root, root + [name], to, marks.(buckets := marks.buckets + {to}), ok);
    MarkAndUnmark(marks.buckets, to);
  }

  lemma MarkAndUnmark<T>(marks: set<T>, mark: T)
    ensures marks + {mark} - {mark} == marks <==> mark !in marks
    ensures (marks + {mark}) - (marks + {mark} - {mark}) == {mark}
  {
    assert mark !in marks ==> marks + {mark} - {mark} == marks;
  }

  /** The first reaction to a new file with an unclean name. */
  lemma FileCleaned(root: Path, parent: Path, bucket: string, key: string, name: string, marks: Marks, random: string, rest: nat)
    requires BucketOf(root, parent + [name]) == Some(bucket) && parent != root && FromBucket(bucket, parent) == Some(key)
    requires NormalizeFile(name, random).Yes?
    ensures var to := NormalizeFile(name, random).to;
            NewFile(root, parent + [name], marks, random, true, rest) ==
            Reaction(Some(NewObject(bucket, key, Object(to, rest))), marks.(objects := marks.objects + {(bucket, key, to)}),
                     Some(Move(parent + [name], parent + [to])))
  {
    assert Front(parent + [name]) == parent;
    FileDecision(name, random);
  }

  lemma FileSkipped(root: Path, from: Path, parent: Path, bucket: string, key: string, to: string, marks: Marks, random: string, ok: bool)
    requires BucketOf(root, parent + [to]) == Some(bucket) && FromBucket(bucket, parent) == Some(key)
    requires CleanFile(to) && (bucket, key, to) in marks.objects
    ensures RenamedFile(root, from, parent + [to], marks, random, ok) ==
            Reaction(None, marks.(objects := marks.objects - {(bucket, key, to)}), None)
  {
    assert Front(parent + [to]) == parent;
    FileDecision(to, random);
  }

  /** The same for a file that is created under an unclean name, in any directory below the root. */
  lemma FileEcho(root: Path, parent: Path, name: string, marks: Marks, random: string, r2: string, rest: nat, ok: bool)
    requires IsPath(parent) && root < parent
    requires NormalizeFile(name, random).Yes? && (HasNonDash(name) || CleanFile(random + ".unknown"))
    ensures var path, moved := parent + [name], parent + [NormalizeFile(name, random).to];
            var first := NewFile(root, path, marks, random, true, rest);
            && first.Reaction? && first.change.Some? && first.change.value.NewObject? && first.move == Some(Move(path, moved))
            && var c := first.change.value;
            var mark := (c.bucket, c.key, c.obj.fileName);
            var echo := RenamedFile(root, path, moved, first.marks, r2, ok);
            && echo.Reaction? && echo.change.None? && echo.move.None?
            && first.marks.objects - echo.marks.objects == {mark}
            && (echo.marks == marks <==> mark !in marks.objects)
  {
    var to, bucket := NormalizeFile(name, random).to, parent[|root|];
    var segs := parent[|root| + 1..];
    assert parent == root + [bucket] + segs;
    FromBucketExact(root, bucket, segs);
    var key := FromBucket(bucket, parent).value;
    FileDecision(name, random);
    assert (parent + [name])[..|root|] == root && (parent + [to])[..|root|] == root;
    FileCleaned(root, parent, bucket, key, name, marks, random, rest);
    var marked := marks.(objects := marks.objects + {(bucket, key, to)});
    FileSkipped(root, parent + [name], parent, bucket, key, to, marked, r2, ok);
    MarkAndUnmark(marks.objects, (bucket, key, to));
  }

  /** Below bucket level the mark is made for the unclean key, so a directory renamed to an unclean name
      echoes as a second change, unless the clean key happened to be marked. */
  lemma NestedEcho(root: Path, bucket: string, source: Path, dir: Path, name: string, marks: Marks, ok: bool)
    returns (first: Reaction, echo: Reaction)
    requires IsPath(root + [bucket]) && IsPath(source) && IsPath(dir) && !NameInRoot(root, bucket)
    requires HasNonDash(name) && !CleanDir(name) && IsComponent(name) && IsComponent(CleanName(name))
    ensures var base := root + [bucket] + dir;
            && first == RenamedDirectory(root, root + [bucket] + source, base + [name], marks, true)
            && first.Reaction? && first.change.Some? && first.move == Some(Move(base + [name], base + [CleanName(name)]))
            && echo == RenamedDirectory(root, base + [name], base + [CleanName(name)], first.marks, ok)
    ensures echo.Reaction?
    ensures echo.change.Some? <==> (bucket, KeyOf(dir + [CleanName(name)])) !in marks.keys
  {
    var base, to := root + [bucket] + dir, CleanName(name);
    var unclean, clean := KeyOf(dir + [name]), KeyOf(dir + [to]);
    KeyBelow(root, bucket, source);
    KeyOfChild(root, bucket, dir, name);
    KeyOfChild(root, bucket, dir, to);
    var marked := marks.(keys := marks.keys + {(bucket, unclean)});
    NestedCleaned(root, bucket, root + [bucket] + source, base, name, KeyOf(source), unclean, marks);
    NestedReported(root, bucket, base + [name], base, to, unclean, clean, marked, ok);
    first := RenamedDirectory(root, root + [bucket] + source, base + [name], marks, true);
    echo := RenamedDirectory(root, base + [name], base + [to], marked, ok);
    UncleanChanges(name);
    DifferentKeys(dir, name, to);
    OtherMark(echo, marks, marked, bucket, unclean, clean, NameKey(bucket, unclean, to));
  }

  /** A mark for the unclean key does not skip the clean one. */
  lemma OtherMark(echo: Reaction, marks: Marks, marked: Marks, bucket: string, unclean: string, clean: string, c: Change)
    requires unclean != clean && marked == marks.(keys := marks.keys + {(bucket, unclean)})
    requires echo == if (bucket, clean) in marked.keys then Reaction(None, marked.(keys := marked.keys - {(bucket, clean)}), None)
                     else Reaction(Some(c), marked, None)
    ensures echo.Reaction? && (echo.change.Some? <==> (bucket, clean) !in marks.keys)
  {
    assert (bucket, clean) in marked.keys <==> (bucket, clean) in marks.keys;
  }

  lemma KeyBelow(root: Path, bucket: string, segs: Path)
    requires !NameInRoot(root, bucket) && IsPath(root + [bucket]) && IsPath(segs)
    ensures FromBucket(bucket, root + [bucket] + segs) == Some(KeyOf(segs))
    ensures BucketOf(root, root + [bucket] + segs) == Some(bucket)
  {
    FromBucketExact(root, bucket, segs);
    assert (root + [bucket] + segs)[..|root|] == root;
  }

  lemma KeyOfChild(root: Path, bucket: string, dir: Path, name: string)
    requires !NameInRoot(root, bucket) && IsPath(root + [bucket]) && IsPath(dir) && IsComponent(name)
    ensures FromBucket(bucket, root + [bucket] + dir + [name]) == Some(KeyOf(dir + [name]))
    ensures BucketOf(root, root + [bucket] + dir + [name]) == Some(bucket)
  {
    KeyBelow(root, bucket, dir + [name]);
    assert root + [bucket] + (dir + [name]) == root + [bucket] + dir + [name];
  }

  lemma NestedCleaned(root: Path, bucket: string, from: Path, base: Path, name: string, source: string, key: string, marks: Marks)
    requires base != root && BucketOf(root, base + [name]) == Some(bucket)
    requires FromBucket(bucket, from) == Some(source) && FromBucket(bucket, base + [name]) == Some(key)
    requires HasNonDash(name) && !CleanDir(name)
    ensures RenamedDirectory(root, from, base + [name], marks, true) ==
            Reaction(Some(NameKey(bucket, source, CleanName(name))), marks.(keys := marks.keys + {(bucket, key)}),
                     Some(Move(base + [name], base + [CleanName(name)])))
  {
    assert Front(base + [name]) == base;
    DirDecision(name, false, "");
  }

  lemma NestedReported(root: Path, bucket: string, from: Path, base: Path, to: string, source: string, key: string, marks: Marks, ok: bool)
    requires base != root && BucketOf(root, base + [to]) == Some(bucket) && CleanDir(to)
    requires FromBucket(bucket, from) == Some(source) && FromBucket(bucket, base + [to]) == Some(key)
    ensures RenamedDirectory(root, from, base + [to], marks, ok) ==
            if (bucket, key) in marks.keys then Reaction(None, marks.(keys := marks.keys - {(bucket, key)}), None)
            else Reaction(Some(NameKey(bucket, source, to)), marks, None)
  {
    assert Front(base + [to]) == base;
    DirDecision(to, false, "");
  }

  lemma DifferentKeys(dir: Path, x: string, y: string)
    requires IsPath(dir) && IsComponent(x) && IsComponent(y) && x != y
    ensures KeyOf(dir + [x]) != KeyOf(dir + [y])
  {
    ComponentsHaveKey(dir + [x]);
    ComponentsHaveKey(dir + [y]);
    WalkKeyOf(dir + [x]);
    WalkKeyOf(dir + [y]);
    assert (dir + [x])[|dir|] == x && (dir + [y])[|dir|] == y;
  }

  /** Renaming a file directly below the root panics, unless the root's own text holds the file's name. */
  lemma RootFilePanics(root: Path, from: Path, name: string, marks: Marks, random: string, ok: bool)
    requires from != []
    ensures RenamedFile(root, from, root + [name], marks, random, ok) == Panic(None) <==> !Contains(Render(root), name)
  {
    assert Front(root + [name]) == root;
    FileDecision(name, random);
    FirstAtExact(Render(root), name);
  }

  // ---------- the handlers in place ----------

  /** The watcher's handlers, with their trackers.  The disk decides whether a rename succeeds. */
  class Handlers {
    const root: Path
    const skipper: S.Skipper

    constructor (root: Path, skipper: S.Skipper)
      ensures this.root == root && this.skipper == skipper
    {
      this.root, this.skipper := root, skipper;
    }

    method HandleNewDirectory(path: Path, random: string) returns (change: Option<Change>, move: Option<Move>, ghost ok: bool, panicked: bool)
      requires path != []
      modifies skipper.buckets, skipper.keys
      ensures NewDirectory(root, path, old(skipper.All()), random, ok) == if panicked then Panic(move) else Reaction(change, skipper.All(), move)
    {
      change, move, ok, panicked := None, None, true, false;
      var parent := Front(path);
      match NormalizeDir(FileName(path), true, random) {
        case Not(name) =>
          if parent == root {
            change := Some(NewBucket(name));
          } else {
            var bucket := FindBucket(root, path);
            if bucket.None? {
              panicked := true;
              return;
            }
            var key := FromBucket(bucket.value, path);
            if key.Some? {
              change := Some(NewKey(bucket.value, key.value));
            }
          }
        case Yes(from, to) =>
          var success: bool := *;
          ok := success;
          if !success {
            return;
          }
          move := Some(Move(parent + [from], parent + [to]));
          if root == parent {
            var isNew := skipper.buckets.ToSkip(to);
            change := Some(NewBucket(to));
          } else {
            var key := FromBucket(to, parent + [to]);
            if key.Some? {
              var isNew := skipper.keys.ToSkip(to, key.value);
              change := Some(NewKey(to, key.value));
            }
          }
        case NeedRestore =>
          panicked := true;
      }
    }

    method HandleNewFile(path: Path, random: string, rest: nat) returns (change: Option<Change>, move: Option<Move>, ghost ok: bool, panicked: bool)
      requires path != []
      modifies skipper.objects
      ensures NewFile(root, path, old(skipper.All()), random, ok, rest) == if panicked then Panic(move) else Reaction(change, skipper.All(), move)
    {
      change, move, ok, panicked := None, None, true, false;
      var parent := Front(path);
      if parent == root {
        return;
      }
      var d := NormalizeFile(FileName(path), random);
      if d.Yes? {
        var success: bool := *;
        ok := success;
        if !success {
          return;
        }
        move := Some(Move(parent + [d.from], parent + [d.to]));
      }
      var bucket := FindBucket(root, path);
      if bucket.None? {
        panicked := true;
        return;
      }
      var key := FromBucket(bucket.value, parent);
      if key.None? {
        panicked := true;
        return;
      }
      match d {
        case Yes(_, to) =>
          var isNew := skipper.objects.ToSkip(bucket.value, key.value, to);
          change := Some(NewObject(bucket.value, key.value, Object(to, rest)));
        case Not(name) =>
          change := Some(NewObject(bucket.value, key.value, Object(name, rest)));
        case NeedRestore =>
          panicked := true;
      }
    }

    method HandleRenamedDirectory(from: Path, to: Path) returns (change: Option<Change>, move: Option<Move>, ghost ok: bool, panicked: bool)
      requires to != []
      modifies skipper.buckets, skipper.keys
      ensures RenamedDirectory(root, from, to, old(skipper.All()), ok) == if panicked then Panic(move) else Reaction(change, skipper.All(), move)
    {
      change, move, ok, panicked := None, None, true, false;
      ghost var marks := skipper.All();
      var parent := Front(to);
      match NormalizeDir(FileName(to), false, "") {
        case Not(name) =>
          if parent == root {
            var marked := skipper.buckets.Skipped(name);
            if marked {
              return;
            }
            assert skipper.All() == marks;
            if from == [] {
              panicked := true;
              return;
            }
            change := Some(NameBucket(FileName(from), name));
          } else {
            var bucket := FindBucket(root, to);
            if bucket.None? {
              panicked := true;
              return;
            }
            var key := FromBucket(bucket.value, to);
            if key.None? {
              panicked := true;
              return;
            }
            var marked := skipper.keys.Skipped(bucket.value, key.value);
            if marked {
              return;
            }
            assert skipper.All() == marks;
            var source := FromBucket(bucket.value, from);
            if source.None? {
              panicked := true;
              return;
            }
            change := Some(NameKey(bucket.value, source.value, name));
          }
        case Yes(oldName, newName) =>
          var success: bool := *;
          ok := success;
          if success {
            move := Some(Move(parent + [oldName], parent + [newName]));
          }
          if parent == root {
            if from == [] {
              panicked := true;
              return;
            }
            var isNew := skipper.buckets.ToSkip(newName);
            change := Some(NameBucket(FileName(from), newName));
          } else {
            var bucket := FindBucket(root, to);
            if bucket.None? {
              panicked := true;
              return;
            }
            var source, key := FromBucket(bucket.value, from), FromBucket(bucket.value, to);
            if source.None? || key.None? {
              panicked := true;
              return;
            }
            var isNew := skipper.keys.ToSkip(bucket.value, key.value);
            change := Some(NameKey(bucket.value, source.value, newName));
          }
        case NeedRestore =>
          var success: bool := *;
          ok := success;
          if success {
            move := Some(Move(to, from));
          }
      }
    }

    method HandleRenamedFile(from: Path, to: Path, random: string) returns (change: Option<Change>, move: Option<Move>, ghost ok: bool, panicked: bool)
      requires to != []
      modifies skipper.objects
      ensures RenamedFile(root, from, to, old(skipper.All()), random, ok) == if panicked then Panic(move) else Reaction(change, skipper.All(), move)
    {
      change, move, ok, panicked := None, None, true, false;
      var parent := Front(to);
      var bucket := FindBucket(root, to);
      if bucket.None? {
        panicked := true;
        return;
      }
      var key := FromBucket(bucket.value, parent);
      if key.None? {
        panicked := true;
        return;
      }
      match NormalizeFile(FileName(to), random) {
        case Not(name) =>
          var marked := skipper.objects.Skipped(bucket.value, key.value, name);
          if marked {
            return;
          }
          assert skipper.objects.All() == old(skipper.objects.All());
          if from == [] {
            panicked := true;
            return;
          }
          change := Some(NameObject(bucket.value, key.value, FileName(from), name));
        case Yes(oldName, newName) =>
          var success: bool := *;
          ok := success;
          if !success {
            return;
          }
          move := Some(Move(parent + [oldName], parent + [newName]));
          var isNew := skipper.objects.ToSkip(bucket.value, key.value, newName);
          change := Some(NameObject(bucket.value, key.value, oldName, newName));
        case NeedRestore =>
          panicked := true;
      }
    }
  }
}
