/** Building the tree from the directories on disk and bringing the store in line with it. */
module Build {
  import opened Wrappers
  import opened Keys
  import opened Names
  import opened BucketMap
  import opened Paths
  import B = BucketMap
  import opened LocalStorage

  /** A directory as its listing shows it.  Each entry carries the random text its fallback name would
      get, and whether renaming it would succeed; `rest` is what a file's metadata says. */
  datatype Dir = Dir(entries: seq<Entry>)

  datatype Entry =
    | File(name: string, random: string, renames: bool, rest: nat)
    | Sub(name: string, random: string, renames: bool, dir: Dir)

  // ---------- what a directory holds ----------

  function Decide(e: Entry): (d: Decision)
    ensures !d.NeedRestore?
  {
    if e.Sub? then NormalizeDir(e.name, true, e.random) else NormalizeFile(e.name, e.random)
  }

  /** The name an entry is kept under; an entry whose rename fails is skipped. */
  function KeptName(e: Entry): Option<string> {
    match Decide(e)
    case Not(name) => Some(name)
    case Yes(_, to) => if e.renames then Some(to) else None
    case NeedRestore => None
  }

  /** A clean entry keeps its name; any other is renamed, or skipped if that fails: to its clean name if it
      has a character that is not a dash, and else to its fallback name. */
  lemma KeptNames(e: Entry)
    ensures KeptName(e) == Some(e.name) <==> if e.File? then CleanFile(e.name) else CleanDir(e.name)
    ensures KeptName(e) != Some(e.name) ==> (KeptName(e).Some? <==> e.renames)
    ensures KeptName(e).Some? && HasNonDash(e.name) && KeptName(e) != Some(e.name) ==> CleanedFrom(e.name, KeptName(e).value, e.File?)
    ensures KeptName(e).Some? && !HasNonDash(e.name) ==>
              KeptName(e) == Some(if e.File? then e.random + ".unknown" else "INVALID_NAME-" + e.random)
  {
    if HasNonDash(e.name) {
      CleanedNames(e.name);
    } else {
      assert !CleanFile(e.name) && !CleanDir(e.name) by {
        NoDashClean(e.name);
      }
      UnknownName(e.random);
      FallbackName(e.random);
    }
    DirDecision(e.name, true, e.random);
    FileDecision(e.name, e.random);
  }

  /** A bucket is named like its directory if that is clean, and else by its clean or its fallback name. */
  lemma BucketNames(e: Entry)
    ensures BucketName(e) == e.name <==> CleanDir(e.name)
    ensures !CleanDir(e.name) && HasNonDash(e.name) ==> CleanedFrom(e.name, BucketName(e), false)
    ensures !HasNonDash(e.name) ==> BucketName(e) == "INVALID_NAME-" + e.random
  {
    if HasNonDash(e.name) {
      CleanedNames(e.name);
      if !CleanDir(e.name) {
        UncleanChanges(e.name);
      }
    } else {
      NoDashClean(e.name);
      FallbackName(e.random);
    }
    DirDecision(e.name, true, e.random);
  }

  lemma NoDashClean(name: string)
    requires !HasNonDash(name)
    ensures !CleanFile(name) && !CleanDir(name)
  {
    if CleanFile(name) {
      CleanFileKept(name);
    }
    if CleanDir(name) {
      CleanDirKept(name);
    }
  }

  /** The files as they look on disk, in listing order. */
  function Files(entries: seq<Entry>): seq<Object> {
    if entries == [] then [] else Files(entries[..|entries| - 1]) + AsFile(entries[|entries| - 1])
  }

  function AsFile(e: Entry): seq<Object> {
    if e.File? && KeptName(e).Some? then [Object(KeptName(e).value, e.rest)] else []
  }

  /** The last directory kept under a name. */
  function LastSub(entries: seq<Entry>, name: string): Option<Dir> {
    if entries == [] then None
    else
      var n := |entries| - 1;
      if entries[n].Sub? && KeptName(entries[n]) == Some(name) then Some(entries[n].dir) else LastSub(entries[..n], name)
  }

  ghost predicate HasDirs(d: Dir) {
    exists name :: LastSub(d.entries, name).Some?
  }

  /** The directory a path leads to. */
  function SubDir(d: Dir, segs: seq<string>): Option<Dir>
    decreases segs
  {
    if segs == [] then Some(d)
    else match LastSub(d.entries, segs[0])
      case None => None
      case Some(sub) => SubDir(sub, segs[1..])
  }

  function KeyAt(bucket: string, path: Path): string {
    match FromBucket(bucket, path) case Some(key) => key case None => ROOT
  }

  /** A file met while building, with the place its document has. */
  datatype Item = Item(place: Place, rest: nat)

  function Items(bucket: string, key: string, files: seq<Object>): seq<Item> {
    seq(|files|, i requires 0 <= i < |files| => Item(Place(bucket, key, files[i].fileName), files[i].rest))
  }

  /** Every file at or below a directory, in the order in which the store is asked for it: directories
      when they are met, then the directory's own files. */
  function Met(bucket: string, path: Path, d: Dir): seq<Item>
    decreases d, |d.entries| + 1
  {
    MetBelow(bucket, path, d, |d.entries|) + Items(bucket, KeyAt(bucket, path), Files(d.entries))
  }

  function MetBelow(bucket: string, path: Path, d: Dir, n: nat): seq<Item>
    requires n <= |d.entries|
    decreases d, n
  {
    if n == 0 then [] else MetBelow(bucket, path, d, n - 1) + MetIn(bucket, path, d.entries[n - 1])
  }

  function MetIn(bucket: string, path: Path, e: Entry): seq<Item>
    decreases e, 0
  {
    if e.Sub? && KeptName(e).Some? then Met(bucket, path + [KeptName(e).value], e.dir) else []
  }

  // ---------- the store during a build ----------

  /** The store, and the ids of the documents found so far. */
  datatype Sync = Sync(docs: Docs, ids: seq<nat>, nextId: nat)

  /** One file: its document's id is recorded if there is one; if not, a document is inserted, whose id
      is not recorded. */
  function Synced1(s: Sync, item: Item): Sync {
    if item.place in s.docs then s.(ids := s.ids + [s.docs[item.place].id])
    else Sync(s.docs[item.place := Document(s.nextId, item.rest, None)], s.ids, s.nextId + 1)
  }

  function Synced(s: Sync, items: seq<Item>): Sync {
    if items == [] then s else Synced1(Synced(s, items[..|items| - 1]), items[|items| - 1])
  }

  /** The clean-up: documents whose id was not recorded are deleted. */
  function Cleaned(s: Sync): Docs {
    map p | p in s.docs && s.docs[p].id in s.ids :: s.docs[p]
  }

  lemma {:induction false} SyncedAppend(s: Sync, a: seq<Item>, b: seq<Item>)
    ensures Synced(s, a + b) == Synced(Synced(s, a), b)
  {
    if b == [] {
      assert a + b == a;
    } else {
      SyncedAppend(s, a, b[..|b| - 1]);
      assert (a + b)[..|a + b| - 1] == a + b[..|b| - 1];
    }
  }

  ghost predicate Extends(docs: Docs, more: Docs) {
    forall p :: p in docs ==> p in more && more[p] == docs[p]
  }

  lemma {:induction false} SyncedExtends(s: Sync, items: seq<Item>)
    ensures Extends(s.docs, Synced(s, items).docs)
  {
    if items != [] {
      SyncedExtends(s, items[..|items| - 1]);
    }
  }

  ghost predicate UniqueIds(s: Sync) {
    && (forall p :: p in s.docs ==> s.docs[p].id < s.nextId)
    && (forall p, q :: p in s.docs && q in s.docs && p != q ==> s.docs[p].id != s.docs[q].id)
  }

  /** How often a place is met. */
  function Times(items: seq<Item>, p: Place): nat {
    |set i | 0 <= i < |items| && items[i].place == p|
  }

  lemma TimesStep(items: seq<Item>, x: Item, p: Place)
    ensures Times(items + [x], p) == Times(items, p) + if x.place == p then 1 else 0
  {
    var before := set i | 0 <= i < |items| && items[i].place == p;
    var after := set i | 0 <= i < |items + [x]| && (items + [x])[i].place == p;
    assert after == before + if x.place == p then {|items|} else {};
  }

  lemma {:induction false} TimesAppend(a: seq<Item>, b: seq<Item>, p: Place)
    ensures Times(a + b, p) == Times(a, p) + Times(b, p)
  {
    if b == [] {
      assert a + b == a;
    } else {
      var front, last := b[..|b| - 1], b[|b| - 1];
      TimesAppend(a, front, p);
      TimesStep(front, last, p);
      TimesStep(a + front, last, p);
      assert b == front + [last] && a + b == (a + front) + [last];
    }
  }

  /** Whether a file at the place had a document when it was met: from before the build, or from being met before. */
  predicate Recorded(docs: Docs, items: seq<Item>, p: Place) {
    Times(items, p) >= if p in docs then 1 else 2
  }

  lemma {:induction false} SyncedIds(s: Sync, items: seq<Item>)
    requires UniqueIds(s) && forall id :: id in s.ids ==> id < s.nextId
    ensures var r := Synced(s, items); UniqueIds(r) && forall id :: id in r.ids ==> id < r.nextId
  {
    if items != [] {
      SyncedIds(s, items[..|items| - 1]);
    }
  }

  lemma {:induction false} SyncedPlaces(s: Sync, items: seq<Item>, p: Place)
    ensures p in Synced(s, items).docs <==> p in s.docs || Times(items, p) > 0
  {
    if items != [] {
      var front, last := items[..|items| - 1], items[|items| - 1];
      assert items == front + [last];
      TimesStep(front, last, p);
      SyncedPlaces(s, front, p);
    }
  }

  lemma {:induction false} SyncedRecords(s: Sync, items: seq<Item>, p: Place)
    requires UniqueIds(s) && s.ids == [] && p in Synced(s, items).docs
    ensures var r := Synced(s, items); r.docs[p].id in r.ids <==> Recorded(s.docs, items, p)
  {
    if items != [] {
      var front, last := items[..|items| - 1], items[|items| - 1];
      assert items == front + [last];
      TimesStep(front, last, p);
      SyncedIds(s, front);
      SyncedPlaces(s, front, p);
      if p in Synced(s, front).docs {
        SyncedRecords(s, front, p);
      }
    }
  }

  /** After the clean-up exactly the recorded documents remain, those from before the build unchanged. */
  lemma CleanedExact(docs: Docs, nextId: nat, items: seq<Item>)
    requires UniqueIds(Sync(docs, [], nextId))
    ensures var r := Cleaned(Synced(Sync(docs, [], nextId), items));
            && (forall p :: p in r <==> Recorded(docs, items, p))
            && (forall p :: p in r && p in docs ==> r[p] == docs[p])
  {
    var s := Sync(docs, [], nextId);
    SyncedExtends(s, items);
    forall p
      ensures p in Cleaned(Synced(s, items)) <==> Recorded(docs, items, p)
    {
      SyncedPlaces(s, items, p);
      if p in Synced(s, items).docs {
        SyncedRecords(s, items, p);
      }
    }
  }

  // ---------- the tree during a build ----------

  /** An entry's files, with what the store says of them. */
  ghost predicate FilesMirror(x: KeyEntry, d: Dir, bucket: string, key: string, docs: Docs) {
    var files := Files(d.entries);
    && (x.objects.None? <==> files == [])
    && |Objects(x)| == |files|
    && (forall i :: 0 <= i < |files| ==>
          var p := Place(bucket, key, files[i].fileName);
          p in docs && Objects(x)[i] == Object(files[i].fileName, docs[p].rest))
  }

  /** An entry shows a directory's files, and has keys exactly when the directory has directories. */
  ghost predicate NodeMirrors(x: KeyEntry, d: Dir, bucket: string, key: string, docs: Docs) {
    FilesMirror(x, d, bucket, key, docs) && (x.keys.Some? <==> HasDirs(d))
  }

  ghost predicate PathMirrors(e: KeyEntry, d: Dir, bucket: string, path: Path, docs: Docs, segs: seq<string>) {
    && (Find(e, segs).Some? <==> SubDir(d, segs).Some?)
    && (Find(e, segs).Some? ==> NodeMirrors(Find(e, segs).value, SubDir(d, segs).value, bucket, KeyAt(bucket, path + segs), docs))
  }

  ghost predicate Mirrors(e: KeyEntry, d: Dir, bucket: string, path: Path, docs: Docs) {
    forall segs :: PathMirrors(e, d, bucket, path, docs, segs)
  }

  lemma MirrorsStill(e: KeyEntry, d: Dir, bucket: string, path: Path, docs: Docs, more: Docs)
    requires Mirrors(e, d, bucket, path, docs) && Extends(docs, more)
    ensures Mirrors(e, d, bucket, path, more)
  {
    forall segs
      ensures PathMirrors(e, d, bucket, path, more, segs)
    {
      assert PathMirrors(e, d, bucket, path, docs, segs);
    }
  }

  function Get(keys: map<string, KeyEntry>, name: string): Option<KeyEntry> {
    if name in keys then Some(keys[name]) else None
  }

  ghost predicate SubMirrors(x: Option<KeyEntry>, sub: Option<Dir>, bucket: string, path: Path, docs: Docs) {
    && (x.Some? <==> sub.Some?)
    && (x.Some? ==> Mirrors(x.value, sub.value, bucket, path, docs))
  }

  /** The directories met so far, each name with the last entry kept under it. */
  ghost predicate KeysMirror(keys: map<string, KeyEntry>, entries: seq<Entry>, bucket: string, path: Path, docs: Docs) {
    forall name :: SubMirrors(Get(keys, name), LastSub(entries, name), bucket, path + [name], docs)
  }

  lemma KeysStill(keys: map<string, KeyEntry>, entries: seq<Entry>, bucket: string, path: Path, docs: Docs, more: Docs)
    requires KeysMirror(keys, entries, bucket, path, docs) && Extends(docs, more)
    ensures KeysMirror(keys, entries, bucket, path, more)
  {
    forall name
      ensures SubMirrors(Get(keys, name), LastSub(entries, name), bucket, path + [name], more)
    {
      assert SubMirrors(Get(keys, name), LastSub(entries, name), bucket, path + [name], docs);
      if Get(keys, name).Some? {
        MirrorsStill(keys[name], LastSub(entries, name).value, bucket, path + [name], docs, more);
      }
    }
  }

  lemma KeysGrow(keys: map<string, KeyEntry>, entries: seq<Entry>, e: Entry, bucket: string, path: Path, docs: Docs, x: KeyEntry)
    requires KeysMirror(keys, entries, bucket, path, docs)
    requires e.Sub? && KeptName(e).Some? && Mirrors(x, e.dir, bucket, path + [KeptName(e).value], docs)
    ensures KeysMirror(keys[KeptName(e).value := x], entries + [e], bucket, path, docs)
  {
    var kept := KeptName(e).value;
    forall name
      ensures SubMirrors(Get(keys[kept := x], name), LastSub(entries + [e], name), bucket, path + [name], docs)
    {
      LastSubStep(entries, e, name);
      assert SubMirrors(Get(keys, name), LastSub(entries, name), bucket, path + [name], docs);
    }
  }

  lemma KeysSkip(keys: map<string, KeyEntry>, entries: seq<Entry>, e: Entry, bucket: string, path: Path, docs: Docs)
    requires KeysMirror(keys, entries, bucket, path, docs)
    requires e.File? || KeptName(e).None?
    ensures KeysMirror(keys, entries + [e], bucket, path, docs)
  {
    forall name
      ensures SubMirrors(Get(keys, name), LastSub(entries + [e], name), bucket, path + [name], docs)
    {
      LastSubStep(entries, e, name);
      assert SubMirrors(Get(keys, name), LastSub(entries, name), bucket, path + [name], docs);
    }
  }

  lemma LastSubStep(entries: seq<Entry>, e: Entry, name: string)
    ensures LastSub(entries + [e], name) == if e.Sub? && KeptName(e) == Some(name) then Some(e.dir) else LastSub(entries, name)
  {
    assert (entries + [e])[..|entries|] == entries;
  }

  lemma EntryMirrors(e: KeyEntry, d: Dir, bucket: string, path: Path, docs: Docs, keys: map<string, KeyEntry>)
    requires KeysMirror(keys, d.entries, bucket, path, docs)
    requires e.keys == (if keys == map[] then None else Some(keys))
    requires FilesMirror(e, d, bucket, KeyAt(bucket, path), docs)
    ensures Mirrors(e, d, bucket, path, docs)
  {
    forall segs
      ensures PathMirrors(e, d, bucket, path, docs, segs)
    {
      if segs == [] {
        assert path + segs == path;
        NamesMirror(e, d, bucket, path, docs, keys);
      } else {
        BelowMirrors(e, d, bucket, path, docs, keys, segs[0], segs[1..]);
        assert [segs[0]] + segs[1..] == segs;
      }
    }
  }

  lemma BelowMirrors(e: KeyEntry, d: Dir, bucket: string, path: Path, docs: Docs, keys: map<string, KeyEntry>, name: string, segs: seq<string>)
    requires KeysMirror(keys, d.entries, bucket, path, docs)
    requires e.keys == (if keys == map[] then None else Some(keys))
    ensures PathMirrors(e, d, bucket, path, docs, [name] + segs)
  {
    assert SubMirrors(Get(keys, name), LastSub(d.entries, name), bucket, path + [name], docs);
    assert Child(e, name) == Get(keys, name);
    assert ([name] + segs)[1..] == segs && path + [name] + segs == path + ([name] + segs);
    if name in keys {
      assert PathMirrors(keys[name], LastSub(d.entries, name).value, bucket, path + [name], docs, segs);
    }
  }

  lemma {:induction false} NamesMirror(e: KeyEntry, d: Dir, bucket: string, path: Path, docs: Docs, keys: map<string, KeyEntry>)
    requires KeysMirror(keys, d.entries, bucket, path, docs)
    requires e.keys == (if keys == map[] then None else Some(keys))
    ensures e.keys.Some? <==> HasDirs(d)
  {
    forall name
      ensures LastSub(d.entries, name).Some? <==> name in keys
    {
      assert SubMirrors(Get(keys, name), LastSub(d.entries, name), bucket, path + [name], docs);
    }
    if keys != map[] {
      var name :| name in keys;
      assert LastSub(d.entries, name).Some?;
    }
  }

  // ---------- the methods ----------

  /** The documents of one directory's files, found or inserted. */
  method SyncObjects(files: seq<Object>, bucket: string, key: string, ls: LocalStorage, ids: seq<nat>)
    returns (objs: seq<Object>, ids': seq<nat>)
    requires ls.Valid()
    modifies ls
    ensures ls.Valid()
    ensures Sync(ls.docs, ids', ls.nextId) == Synced(Sync(old(ls.docs), ids, old(ls.nextId)), Items(bucket, key, files))
    ensures |objs| == |files|
    ensures forall i :: 0 <= i < |files| ==>
              var p := Place(bucket, key, files[i].fileName);
              p in ls.docs && objs[i] == Object(files[i].fileName, ls.docs[p].rest)
  {
    objs, ids' := [], ids;
    ghost var s := Sync(ls.docs, ids, ls.nextId);
    ghost var items := Items(bucket, key, files);
    for i := 0 to |files|
      invariant ls.Valid()
      invariant Sync(ls.docs, ids', ls.nextId) == Synced(s, items[..i])
      invariant |objs| == i
      invariant forall k :: 0 <= k < i ==>
                  var p := Place(bucket, key, files[k].fileName);
                  p in ls.docs && objs[k] == Object(files[k].fileName, ls.docs[p].rest)
    {
      assert items[..i + 1][..i] == items[..i] && items[..i + 1][i] == items[i];
      var p := Place(bucket, key, files[i].fileName);
      if p in ls.docs {
        ids' := ids' + [ls.docs[p].id];
        objs := objs + [Object(p.fileName, ls.docs[p].rest)];
      } else {
        var inserted := ls.NewObject(bucket, key, files[i]);
        objs := objs + [files[i]];
      }
    }
    assert items[..|files|] == items;
  }

  /** The entry of one directory; unwrapping the key of a path that does not mention the bucket panics. */
  method BuildKeyEntry(path: Path, bucket: string, d: Dir, ls: LocalStorage, ids: seq<nat>)
    returns (entry: Option<KeyEntry>, ids': seq<nat>)
    requires path != [] && ls.Valid()
    modifies ls
    decreases d, 1
    ensures ls.Valid()
    ensures entry.Some? <==> FromBucket(bucket, path).Some?
    ensures entry.Some? ==>
              Sync(ls.docs, ids', ls.nextId) == Synced(Sync(old(ls.docs), ids, old(ls.nextId)), Met(bucket, path, d))
    ensures entry.Some? ==> Mirrors(entry.value, d, bucket, path, ls.docs)
  {
    ghost var s := Sync(ls.docs, ids, ls.nextId);
    var panicked, objects, keys;
    panicked, objects, keys, ids' := ReadDirectory(path, bucket, d, ls, ids);
    var key := FromBucket(bucket, path);
    if panicked || key.None? {
      return None, ids';
    }
    ghost var below, before := MetBelow(bucket, path, d, |d.entries|), ls.docs;
    var objs;
    objs, ids' := SyncObjects(objects, bucket, key.value, ls, ids');
    SyncedAppend(s, below, Items(bucket, key.value, objects));
    SyncedExtends(Synced(s, below), Items(bucket, key.value, objects));
    KeysStill(keys, d.entries, bucket, path, before, ls.docs);
    var built := KeyEntry(if objs == [] then None else Some(objs), if keys == map[] then None else Some(keys));
    EntryMirrors(built, d, bucket, path, ls.docs, keys);
    entry := Some(built);
  }

  /** Reads the listing: files are put aside, directories get their entries at once. */
  method ReadDirectory(path: Path, bucket: string, d: Dir, ls: LocalStorage, ids: seq<nat>)
    returns (panicked: bool, objects: seq<Object>, keys: map<string, KeyEntry>, ids': seq<nat>)
    requires path != [] && ls.Valid()
    modifies ls
    decreases d, 0
    ensures ls.Valid()
    ensures panicked ==> FromBucket(bucket, path).None?
    ensures !panicked ==> objects == Files(d.entries)
    ensures !panicked ==> KeysMirror(keys, d.entries, bucket, path, ls.docs)
    ensures !panicked ==>
              Sync(ls.docs, ids', ls.nextId) ==
              Synced(Sync(old(ls.docs), ids, old(ls.nextId)), MetBelow(bucket, path, d, |d.entries|))
  {
    ghost var s := Sync(ls.docs, ids, ls.nextId);
    panicked, objects, keys, ids' := false, [], map[], ids;
    ghost var seen: seq<Entry> := [];
    for i := 0 to |d.entries|
      invariant ls.Valid() && !panicked && seen == d.entries[..i]
      invariant objects == Files(seen)
      invariant Sync(ls.docs, ids', ls.nextId) == Synced(s, MetBelow(bucket, path, d, i))
      invariant KeysMirror(keys, seen, bucket, path, ls.docs)
    {
      var e := d.entries[i];
      var kept := KeptName(e);
      FilesStep(seen, e);
      if kept.Some? && e.Sub? {
        BelowStep(s, bucket, path, d, i);
        FromBucketBelow(bucket, path, kept.value);
        ghost var before := ls.docs;
        var child;
        child, ids' := BuildKeyEntry(path + [kept.value], bucket, e.dir, ls, ids');
        if child.None? {
          panicked := true;
          return;
        }
        KeysStill(keys, seen, bucket, path, before, ls.docs);
        KeysGrow(keys, seen, e, bucket, path, ls.docs, child.value);
        keys := keys[kept.value := child.value];
      } else {
        BelowStep(s, bucket, path, d, i);
        KeysSkip(keys, seen, e, bucket, path, ls.docs);
        if kept.Some? {
          objects := objects + [Object(kept.value, e.rest)];
        }
      }
      TakeOneMore(d.entries, i);
      seen := seen + [e];
    }
    assert seen == d.entries;
  }

  lemma TakeOneMore<T>(s: seq<T>, i: nat)
    requires i < |s|
    ensures s[..i + 1] == s[..i] + [s[i]]
  {
  }

  lemma FilesStep(entries: seq<Entry>, e: Entry)
    ensures Files(entries + [e]) == Files(entries) + AsFile(e)
  {
    assert (entries + [e])[..|entries|] == entries;
  }

  lemma BelowStep(s: Sync, bucket: string, path: Path, d: Dir, i: nat)
    requires i < |d.entries|
    ensures var before := Synced(s, MetBelow(bucket, path, d, i));
            var after := Synced(s, MetBelow(bucket, path, d, i + 1));
            after == Synced(before, MetIn(bucket, path, d.entries[i])) && Extends(before.docs, after.docs)
  {
    SyncedAppend(s, MetBelow(bucket, path, d, i), MetIn(bucket, path, d.entries[i]));
    SyncedExtends(Synced(s, MetBelow(bucket, path, d, i)), MetIn(bucket, path, d.entries[i]));
  }

  /** A path that mentions the bucket still does further down. */
  lemma FromBucketBelow(bucket: string, path: Path, name: string)
    requires path != []
    ensures FromBucket(bucket, path).Some? ==> FromBucket(bucket, path + [name]).Some?
  {
    TextAppend(path, [name]);
    FirstAtExact(Text(path), bucket);
    FirstAtExact(Text(path + [name]), bucket);
    if FromBucket(bucket, path).Some? {
      var i := FirstAt(Text(path), bucket).value;
      assert Text(path + [name])[i..i + |bucket|] == Text(path)[i..i + |bucket|];
      assert OccursAt(Text(path + [name]), bucket, i);
    }
  }

  // ---------- the root ----------

  /** The root's entries become buckets: a name is normalised as a directory's, whatever the entry is. */
  function BucketName(e: Entry): string {
    match NormalizeDir(e.name, true, e.random)
    case Yes(_, to) => to
    case _ => e.name
  }

  /** Reading a bucket panics on a file, and on a directory that has just been renamed away: the listing
      keeps its old path.  Elsewhere its key may be missing. */
  predicate Buildable(root: Path, e: Entry) {
    && e.Sub?
    && !Moved(e)
    && FromBucket(BucketName(e), root + [e.name]).Some?
  }

  predicate AllBuildable(root: Path, entries: seq<Entry>) {
    forall i :: 0 <= i < |entries| ==> Buildable(root, entries[i])
  }

  lemma StopsAt(root: Path, entries: seq<Entry>, i: nat)
    requires i < |entries| && !Buildable(root, entries[i])
    ensures !AllBuildable(root, entries)
  {
  }

  lemma GoesOn(root: Path, entries: seq<Entry>, e: Entry)
    requires AllBuildable(root, entries) && Buildable(root, e)
    ensures AllBuildable(root, entries + [e])
  {
  }

  predicate Moved(e: Entry) {
    NormalizeDir(e.name, true, e.random).Yes? && e.renames
  }

  function LastBucket(entries: seq<Entry>, bucket: string): Option<Entry> {
    if entries == [] then None
    else
      var n := |entries| - 1;
      if BucketName(entries[n]) == bucket then Some(entries[n]) else LastBucket(entries[..n], bucket)
  }

  function MetAll(root: Path, entries: seq<Entry>): seq<Item> {
    if entries == [] then []
    else
      var e := entries[|entries| - 1];
      MetAll(root, entries[..|entries| - 1]) + if e.Sub? then Met(BucketName(e), root + [e.name], e.dir) else []
  }

  ghost predicate BucketMirrors(x: Option<KeyEntry>, last: Option<Entry>, root: Path, docs: Docs, bucket: string) {
    && (x.Some? <==> last.Some?)
    && (x.Some? ==> last.value.Sub? && Mirrors(x.value, last.value.dir, bucket, root + [last.value.name], docs))
  }

  ghost predicate TreeMirrors(t: Tree, entries: seq<Entry>, root: Path, docs: Docs) {
    forall bucket :: BucketMirrors(Get(t, bucket), LastBucket(entries, bucket), root, docs, bucket)
  }

  lemma TreeGrows(t: Tree, entries: seq<Entry>, root: Path, docs: Docs, more: Docs, e: Entry, x: KeyEntry)
    requires TreeMirrors(t, entries, root, docs) && Extends(docs, more)
    requires e.Sub? && Mirrors(x, e.dir, BucketName(e), root + [e.name], more)
    ensures TreeMirrors(t[BucketName(e) := x], entries + [e], root, more)
  {
    var t' := t[BucketName(e) := x];
    forall bucket
      ensures BucketMirrors(Get(t', bucket), LastBucket(entries + [e], bucket), root, more, bucket)
    {
      LastBucketStep(entries, e, bucket);
      assert BucketMirrors(Get(t, bucket), LastBucket(entries, bucket), root, docs, bucket);
      if bucket in t {
        var last := LastBucket(entries, bucket).value;
        MirrorsStill(t[bucket], last.dir, bucket, root + [last.name], docs, more);
      }
    }
  }

  lemma LastBucketStep(entries: seq<Entry>, e: Entry, bucket: string)
    ensures LastBucket(entries + [e], bucket) == if BucketName(e) == bucket then Some(e) else LastBucket(entries, bucket)
  {
    assert (entries + [e])[..|entries|] == entries;
  }

  /** The root's entries with the names and paths their buckets get. */
  method ListBuckets(root: Path, entries: seq<Entry>) returns (buckets: seq<(string, Path)>)
    ensures |buckets| == |entries|
    ensures forall i :: 0 <= i < |entries| ==> buckets[i] == (BucketName(entries[i]), root + [entries[i].name])
  {
    buckets := [];
    for i := 0 to |entries|
      invariant |buckets| == i
      invariant forall k :: 0 <= k < i ==> buckets[k] == (BucketName(entries[k]), root + [entries[k].name])
    {
      buckets := buckets + [(BucketName(entries[i]), root + [entries[i].name])];
    }
  }

  /** The entries of all buckets; a panic leaves the tree alone, but not the store. */
  method BuildBuckets(root: Path, entries: seq<Entry>, ls: LocalStorage) returns (panicked: bool, inner: Tree, ids: seq<nat>)
    requires ls.Valid()
    modifies ls
    ensures ls.Valid()
    ensures panicked <==> !AllBuildable(root, entries)
    ensures !panicked ==> TreeMirrors(inner, entries, root, ls.docs)
    ensures !panicked ==>
              Sync(ls.docs, ids, ls.nextId) == Synced(Sync(old(ls.docs), [], old(ls.nextId)), MetAll(root, entries))
  {
    ghost var s := Sync(ls.docs, [], ls.nextId);
    var buckets := ListBuckets(root, entries);
    panicked, inner, ids := false, map[], [];
    ghost var seen: seq<Entry> := [];
    for i := 0 to |entries|
      invariant ls.Valid() && seen == entries[..i] && !panicked
      invariant AllBuildable(root, seen)
      invariant Sync(ls.docs, ids, ls.nextId) == Synced(s, MetAll(root, seen))
      invariant TreeMirrors(inner, seen, root, ls.docs)
    {
      var e := entries[i];
      var (bucket, path) := buckets[i];
      if e.File? || Moved(e) {
        StopsAt(root, entries, i);
        return true, inner, ids;
      }
      ghost var before := ls.docs;
      var entry;
      entry, ids := BuildKeyEntry(path, bucket, e.dir, ls, ids);
      assert Buildable(root, e) <==> entry.Some?;
      if entry.None? {
        StopsAt(root, entries, i);
        return true, inner, ids;
      }
      GoesOn(root, seen, e);
      MetAllStep(s, root, seen, e);
      TreeGrows(inner, seen, root, before, ls.docs, e, entry.value);
      inner := inner[bucket := entry.value];
      TakeOneMore(entries, i);
      seen := seen + [e];
    }
    assert seen == entries;
  }

  /** Rebuilds the tree from the disk, then deletes the documents that were not found. */
  method Build(root: Path, top: Dir, map_: B.BucketMap, ls: LocalStorage) returns (panicked: bool)
    requires ls.Valid()
    modifies map_, ls
    ensures ls.Valid()
    ensures panicked <==> !AllBuildable(root, top.entries)
    ensures panicked ==> map_.tree == old(map_.tree)
    ensures !panicked ==>
              var s := Synced(Sync(old(ls.docs), [], old(ls.nextId)), MetAll(root, top.entries));
              TreeMirrors(map_.tree, top.entries, root, s.docs) && ls.docs == Cleaned(s)
  {
    var inner, ids;
    panicked, inner, ids := BuildBuckets(root, top.entries, ls);
    if !panicked {
      map_.tree := inner;
      ls.docs := map p | p in ls.docs && ls.docs[p].id in ids :: ls.docs[p];
    }
  }

  lemma MetAllStep(s: Sync, root: Path, entries: seq<Entry>, e: Entry)
    requires e.Sub?
    ensures var before, after := Synced(s, MetAll(root, entries)), Synced(s, MetAll(root, entries + [e]));
            after == Synced(before, Met(BucketName(e), root + [e.name], e.dir)) && Extends(before.docs, after.docs)
  {
    assert (entries + [e])[..|entries|] == entries;
    var items := Met(BucketName(e), root + [e.name], e.dir);
    SyncedAppend(s, MetAll(root, entries), items);
    SyncedExtends(Synced(s, MetAll(root, entries)), items);
  }

  // ---------- the main results ----------

  /** With renames that succeed, building panics exactly when the root holds a file or a directory whose
      name is not clean. */
  lemma BuildPanics(root: Path, entries: seq<Entry>)
    requires IsPath(root) && forall i :: 0 <= i < |entries| ==> IsComponent(entries[i].name) && entries[i].renames
    ensures AllBuildable(root, entries) <==> forall i :: 0 <= i < |entries| ==> entries[i].Sub? && CleanDir(entries[i].name)
  {
    forall i | 0 <= i < |entries|
      ensures Buildable(root, entries[i]) <==> entries[i].Sub? && CleanDir(entries[i].name)
    {
      EntryPanics(root, entries[i]);
    }
  }

  lemma EntryPanics(root: Path, e: Entry)
    requires IsPath(root) && IsComponent(e.name) && e.renames
    ensures Buildable(root, e) <==> e.Sub? && CleanDir(e.name)
  {
    DirDecision(e.name, true, e.random);
    if e.Sub? && CleanDir(e.name) {
      assert root + [e.name] + [] == root + [e.name];
      FromBucketExact(root, e.name, []);
    }
  }
}
