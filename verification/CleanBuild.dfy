/** A build told from the listings themselves, for directories in which no name needs to be cleaned: what
    the tree then shows are the directories and files by their own names, and their own contents. */
module CleanBuild {
  import opened Wrappers
  import opened Keys
  import opened Names
  import opened BucketMap
  import opened Paths
  import opened LocalStorage
  import opened Agreement
  import opened Build
  import opened BuildLaws

  // ---------- listings ----------

  /** A directory as a file system has it: clean names, each once, at every depth. */
  ghost predicate CleanListing(d: Dir)
    decreases d
  {
    && (forall i {:trigger d.entries[i].name} :: 0 <= i < |d.entries| ==> IsComponent(d.entries[i].name))
    && (forall i {:trigger CleanEntry(d.entries[i])} :: 0 <= i < |d.entries| ==> CleanEntry(d.entries[i]))
    && (forall i, j {:trigger d.entries[i].name, d.entries[j].name} ::
          0 <= i < j < |d.entries| ==> d.entries[i].name != d.entries[j].name)
    && (forall i {:trigger d.entries[i].dir} :: 0 <= i < |d.entries| && d.entries[i].Sub? ==> CleanListing(d.entries[i].dir))
  }

  predicate CleanEntry(e: Entry) {
    if e.File? then CleanFile(e.name) else CleanDir(e.name)
  }

  /** A listed directory of that name. */
  ghost predicate Lists(entries: seq<Entry>, i: int, name: string) {
    0 <= i < |entries| && entries[i].Sub? && entries[i].name == name
  }

  /** `x` is the directory that the names lead to. */
  ghost predicate LeadsTo(d: Dir, segs: seq<string>, x: Dir)
    decreases segs
  {
    if segs == [] then x == d
    else exists i :: Lists(d.entries, i, segs[0]) && LeadsTo(d.entries[i].dir, segs[1..], x)
  }

  ghost predicate LeadsFromRoot(entries: seq<Entry>, bucket: string, segs: seq<string>, x: Dir) {
    exists i :: Lists(entries, i, bucket) && LeadsTo(entries[i].dir, segs, x)
  }

  /** The files of a listing, in its order. */
  function ListedFiles(entries: seq<Entry>): (r: seq<Entry>)
    ensures forall f :: f in r <==> f in entries && f.File?
  {
    if entries == [] then []
    else
      assert entries == entries[..|entries| - 1] + [entries[|entries| - 1]];
      ListedFiles(entries[..|entries| - 1]) + if entries[|entries| - 1].File? then [entries[|entries| - 1]] else []
  }

  /** A root that can be built: clean directories with clean contents, none named like a part of the root's path. */
  ghost predicate CleanRoot(root: Path, entries: seq<Entry>) {
    && IsPath(root)
    && (forall i :: 0 <= i < |entries| ==>
          var e := entries[i];
          e.Sub? && CleanDir(e.name) && IsComponent(e.name) && !NameInRoot(root, e.name) && CleanListing(e.dir))
    && (forall i, j :: 0 <= i < j < |entries| ==> entries[i].name != entries[j].name)
  }

  // ---------- a clean listing is kept as it is ----------

  lemma CleanKept(e: Entry)
    requires CleanEntry(e)
    ensures KeptName(e) == Some(e.name)
  {
    KeptNames(e);
  }

  lemma {:induction false} CleanOrderly(d: Dir)
    requires CleanListing(d)
    ensures Orderly(d)
  {
    forall i | 0 <= i < |d.entries|
      ensures KeptName(d.entries[i]) == Some(d.entries[i].name) && IsComponent(d.entries[i].name)
      ensures d.entries[i].Sub? ==> Orderly(d.entries[i].dir)
    {
      assert CleanEntry(d.entries[i]);
      CleanKept(d.entries[i]);
      if d.entries[i].Sub? {
        CleanOrderly(d.entries[i].dir);
      }
    }
  }

  lemma CleanRootOrderly(root: Path, entries: seq<Entry>)
    requires CleanRoot(root, entries)
    ensures OrderlyRoot(root, entries)
  {
    forall i | 0 <= i < |entries|
      ensures Orderly(entries[i].dir)
    {
      CleanOrderly(entries[i].dir);
    }
  }

  lemma {:induction false} CleanFiles(entries: seq<Entry>)
    requires forall i :: 0 <= i < |entries| ==> CleanEntry(entries[i])
    ensures |Files(entries)| == |ListedFiles(entries)|
    ensures forall i :: 0 <= i < |Files(entries)| ==>
              Files(entries)[i] == Object(ListedFiles(entries)[i].name, ListedFiles(entries)[i].rest)
  {
    if entries != [] {
      CleanFiles(entries[..|entries| - 1]);
      CleanKept(entries[|entries| - 1]);
    }
  }

  lemma {:induction false} CleanLastSub(entries: seq<Entry>, name: string) returns (i: int)
    requires forall i :: 0 <= i < |entries| ==> CleanEntry(entries[i])
    ensures LastSub(entries, name).Some? ==> Lists(entries, i, name) && LastSub(entries, name) == Some(entries[i].dir)
    ensures LastSub(entries, name).None? ==> forall j :: !Lists(entries, j, name)
  {
    i := 0;
    if entries != [] {
      var n := |entries| - 1;
      CleanKept(entries[n]);
      if entries[n].Sub? && entries[n].name == name {
        i := n;
      } else {
        i := CleanLastSub(entries[..n], name);
        if LastSub(entries, name).None? {
          forall j
            ensures !Lists(entries, j, name)
          {
            assert !Lists(entries[..n], j, name);
          }
        }
      }
    }
  }

  lemma {:induction false} CleanSubDir(d: Dir, segs: seq<string>, x: Dir)
    requires CleanListing(d)
    ensures SubDir(d, segs) == Some(x) <==> LeadsTo(d, segs, x)
    ensures SubDir(d, segs) == Some(x) ==> CleanListing(x)
    decreases segs
  {
    if segs != [] {
      forall i | 0 <= i < |d.entries|
        ensures CleanEntry(d.entries[i])
      {
      }
      var i := CleanLastSub(d.entries, segs[0]);
      if LastSub(d.entries, segs[0]).Some? {
        CleanSubDir(d.entries[i].dir, segs[1..], x);
        assert forall j :: Lists(d.entries, j, segs[0]) ==> d.entries[j].name == d.entries[i].name;
        assert forall j :: Lists(d.entries, j, segs[0]) ==> j == i;
      }
    }
  }

  lemma CleanDirAt(root: Path, entries: seq<Entry>, bucket: string, segs: seq<string>, x: Dir)
    requires CleanRoot(root, entries)
    ensures DirAt(entries, bucket, segs) == Some(x) <==> LeadsFromRoot(entries, bucket, segs, x)
    ensures DirAt(entries, bucket, segs) == Some(x) ==> CleanListing(x)
  {
    if LastBucket(entries, bucket).Some? {
      var i := LastBucketAt(entries, bucket);
      CleanBucket(entries[i]);
      CleanSubDir(entries[i].dir, segs, x);
      assert Lists(entries, i, bucket);
      assert forall j :: Lists(entries, j, bucket) ==> j == i;
    } else {
      forall j
        ensures !Lists(entries, j, bucket)
      {
        if Lists(entries, j, bucket) {
          CleanBucket(entries[j]);
          BucketFound(entries, j);
        }
      }
    }
  }

  lemma {:induction false} BucketFound(entries: seq<Entry>, j: int)
    requires 0 <= j < |entries|
    ensures LastBucket(entries, BucketName(entries[j])).Some?
  {
    var n := |entries| - 1;
    if j < n {
      BucketFound(entries[..n], j);
    }
  }

  // ---------- what the store holds of a file ----------

  /** A file is met with its own place and contents. */
  lemma {:induction false} MetWith(bucket: string, path: Path, d: Dir, segs: seq<string>, f: Object)
    requires SubDir(d, segs).Some? && f in Files(SubDir(d, segs).value.entries)
    ensures Item(Place(bucket, KeyAt(bucket, path + segs), f.fileName), f.rest) in Met(bucket, path, d)
    decreases segs
  {
    if segs == [] {
      var files, key := Files(d.entries), KeyAt(bucket, path);
      assert path + segs == path;
      var i :| 0 <= i < |files| && files[i] == f;
      assert Items(bucket, key, files)[i] == Item(Place(bucket, key, f.fileName), f.rest);
    } else {
      var i := LastSubAt(d.entries, segs[0]);
      var e := d.entries[i.value];
      assert path + [segs[0]] + segs[1..] == path + segs;
      MetWith(bucket, path + [segs[0]], e.dir, segs[1..], f);
      InListing(bucket, path, d, i.value, Item(Place(bucket, KeyAt(bucket, path + segs), f.fileName), f.rest));
    }
  }

  lemma InEither<T>(x: T, a: seq<T>, b: seq<T>)
    requires x in a || x in b
    ensures x in a + b
  {
  }

  lemma {:induction false} StaysBelow(bucket: string, path: Path, d: Dir, m: nat, n: nat, item: Item)
    requires m <= n <= |d.entries| && item in MetBelow(bucket, path, d, m)
    ensures item in MetBelow(bucket, path, d, n)
    decreases n - m
  {
    if m < n {
      InBelowStep(bucket, path, d, m, item);
      StaysBelow(bucket, path, d, m + 1, n, item);
    }
  }

  /** What is met in one of a directory's directories is met below the directory. */
  lemma InListing(bucket: string, path: Path, d: Dir, i: nat, item: Item)
    requires i < |d.entries| && item in MetIn(bucket, path, d.entries[i])
    ensures item in Met(bucket, path, d)
  {
    var n := |d.entries|;
    assert item in MetBelow(bucket, path, d, n) by {
      InBelowStep(bucket, path, d, i, item);
      StaysBelow(bucket, path, d, i + 1, n, item);
    }
    InEither(item, MetBelow(bucket, path, d, n), Items(bucket, KeyAt(bucket, path), Files(d.entries)));
  }

  lemma InBelowStep(bucket: string, path: Path, d: Dir, n: nat, item: Item)
    requires n < |d.entries| && (item in MetBelow(bucket, path, d, n) || item in MetIn(bucket, path, d.entries[n]))
    ensures item in MetBelow(bucket, path, d, n + 1)
  {
    InEither(item, MetBelow(bucket, path, d, n), MetIn(bucket, path, d.entries[n]));
  }

  lemma MetWithAll(root: Path, entries: seq<Entry>, i: nat, item: Item)
    requires i < |entries| && entries[i].Sub? && item in Met(BucketName(entries[i]), root + [entries[i].name], entries[i].dir)
    ensures item in MetAll(root, entries)
  {
    TakeOneMore(entries, i);
    MetWithLast(root, entries[..i], entries[i], item);
    for j := i + 1 to |entries|
      invariant item in MetAll(root, entries[..j])
    {
      TakeOneMore(entries, j);
      MetWithMore(root, entries[..j], entries[j], item);
    }
    assert entries[..|entries|] == entries;
  }

  lemma MetWithMore(root: Path, entries: seq<Entry>, e: Entry, item: Item)
    requires item in MetAll(root, entries)
    ensures item in MetAll(root, entries + [e])
  {
    assert (entries + [e])[..|entries|] == entries;
  }

  lemma MetWithLast(root: Path, entries: seq<Entry>, e: Entry, item: Item)
    requires e.Sub? && item in Met(BucketName(e), root + [e.name], e.dir)
    ensures item in MetAll(root, entries + [e])
  {
    assert (entries + [e])[..|entries|] == entries;
  }

  lemma InTimes(items: seq<Item>, item: Item)
    requires item in items
    ensures Times(items, item.place) > 0
  {
    var i :| 0 <= i < |items| && items[i] == item;
    assert items == items[..i] + [item] + items[i + 1..];
    TimesAppend(items[..i] + [item], items[i + 1..], item.place);
    TimesStep(items[..i], item, item.place);
  }

  /** A document inserted for a file that is met once holds what the file held. */
  lemma {:induction false} InsertedRest(s: Sync, items: seq<Item>, item: Item)
    requires item in items && Times(items, item.place) == 1 && item.place !in s.docs
    ensures item.place in Synced(s, items).docs && Synced(s, items).docs[item.place].rest == item.rest
  {
    var n := |items| - 1;
    var front, last := items[..n], items[n];
    assert items == front + [last];
    TimesStep(front, last, item.place);
    SyncedPlaces(s, front, item.place);
    if item in front {
      InTimes(front, item);
      InsertedRest(s, front, item);
    }
  }

  // ---------- the main result ----------

  /** What a build shows of a clean root: lookups succeed exactly where the listed names lead, and give the
      listed files in their order, each with the contents of its document if it had one before the build and
      with its own otherwise. */
  lemma BuiltCleanTree(t: Tree, root: Path, entries: seq<Entry>, docs: Docs, nextId: nat, bucket: string, segs: seq<string>)
    requires CleanRoot(root, entries)
    requires TreeMirrors(t, entries, root, Synced(Sync(docs, [], nextId), MetAll(root, entries)).docs)
    ensures View(t, bucket, segs).Some? <==> exists x :: LeadsFromRoot(entries, bucket, segs, x)
    ensures forall x :: LeadsFromRoot(entries, bucket, segs, x) ==>
              var objs, files := View(t, bucket, segs).value, ListedFiles(x.entries);
              && |objs| == |files|
              && forall i :: 0 <= i < |files| ==>
                   objs[i] == Object(files[i].name, var p := Place(bucket, KeyOf(segs), files[i].name);
                                                    if p in docs then docs[p].rest else files[i].rest)
  {
    BuiltTree(t, root, entries, Synced(Sync(docs, [], nextId), MetAll(root, entries)).docs, bucket, segs);
    if DirAt(entries, bucket, segs).Some? {
      CleanDirAt(root, entries, bucket, segs, DirAt(entries, bucket, segs).value);
    }
    forall x | LeadsFromRoot(entries, bucket, segs, x)
      ensures View(t, bucket, segs).Some?
      ensures var objs, files := View(t, bucket, segs).value, ListedFiles(x.entries);
              && |objs| == |files|
              && forall i :: 0 <= i < |files| ==>
                   objs[i] == Object(files[i].name, var p := Place(bucket, KeyOf(segs), files[i].name);
                                                    if p in docs then docs[p].rest else files[i].rest)
    {
      CleanDirAt(root, entries, bucket, segs, x);
      ShownFiles(t, root, entries, docs, nextId, bucket, segs, x);
    }
  }

  lemma ShownFiles(t: Tree, root: Path, entries: seq<Entry>, docs: Docs, nextId: nat, bucket: string, segs: seq<string>, x: Dir)
    requires CleanRoot(root, entries) && DirAt(entries, bucket, segs) == Some(x) && CleanListing(x)
    requires TreeMirrors(t, entries, root, Synced(Sync(docs, [], nextId), MetAll(root, entries)).docs)
    ensures View(t, bucket, segs).Some?
    ensures var objs, files := View(t, bucket, segs).value, ListedFiles(x.entries);
            && |objs| == |files|
            && forall i :: 0 <= i < |files| ==>
                 objs[i] == Object(files[i].name, var p := Place(bucket, KeyOf(segs), files[i].name);
                                                  if p in docs then docs[p].rest else files[i].rest)
  {
    var s, items := Sync(docs, [], nextId), MetAll(root, entries);
    var b := LastBucketAt(entries, bucket);
    var e := entries[b];
    CleanBucket(e);
    assert BucketMirrors(Get(t, bucket), LastBucket(entries, bucket), root, Synced(s, items).docs, bucket);
    assert PathMirrors(t[bucket], e.dir, bucket, root + [e.name], Synced(s, items).docs, segs);
    forall i | 0 <= i < |x.entries|
      ensures CleanEntry(x.entries[i])
    {
    }
    CleanFiles(x.entries);
    ShownKey(root, entries, bucket, segs, x);
    forall i | 0 <= i < |Files(x.entries)|
      ensures var f := Files(x.entries)[i];
              var p := Place(bucket, KeyOf(segs), f.fileName);
              p in Synced(s, items).docs ==> Synced(s, items).docs[p].rest == if p in docs then docs[p].rest else f.rest
    {
      ShownRest(root, entries, docs, nextId, bucket, segs, x, Files(x.entries)[i], b);
    }
  }

  lemma ShownKey(root: Path, entries: seq<Entry>, bucket: string, segs: seq<string>, x: Dir)
    requires CleanRoot(root, entries) && DirAt(entries, bucket, segs) == Some(x)
    ensures KeyAt(bucket, root + [bucket] + segs) == KeyOf(segs)
  {
    CleanRootOrderly(root, entries);
    DirAtOrderly(root, entries, bucket, segs);
    var b := LastBucketAt(entries, bucket);
    CleanBucket(entries[b]);
    FromBucketExact(root, bucket, segs);
  }

  lemma ShownRest(root: Path, entries: seq<Entry>, docs: Docs, nextId: nat, bucket: string, segs: seq<string>, x: Dir, f: Object, b: nat)
    requires CleanRoot(root, entries) && DirAt(entries, bucket, segs) == Some(x) && f in Files(x.entries)
    requires b < |entries| && LastBucket(entries, bucket) == Some(entries[b]) && BucketName(entries[b]) == bucket
    ensures var p, after := Place(bucket, KeyOf(segs), f.fileName), Synced(Sync(docs, [], nextId), MetAll(root, entries)).docs;
            p in after && after[p].rest == if p in docs then docs[p].rest else f.rest
  {
    var s, items := Sync(docs, [], nextId), MetAll(root, entries);
    var item := Item(Place(bucket, KeyOf(segs), f.fileName), f.rest);
    CleanBucket(entries[b]);
    ShownKey(root, entries, bucket, segs, x);
    MetWith(bucket, root + [bucket], entries[b].dir, segs, f);
    MetWithAll(root, entries, b, item);
    CleanRootOrderly(root, entries);
    MetAllTimes(root, entries, item.place);
    OnDiskOnce(root, entries, item.place);
    InTimes(items, item);
    if item.place in docs {
      SyncedExtends(s, items);
    } else {
      InsertedRest(s, items, item);
    }
  }
}
