/** What a build leaves: the tree shows the disk, the store keeps the documents of files on the disk,
    and the two agree exactly when every file had its document before. */
module BuildLaws {
  import opened Wrappers
  import opened Keys
  import opened Names
  import opened BucketMap
  import opened Paths
  import opened LocalStorage
  import opened Agreement
  import opened Build

  /** Kept names are those of a directory: components of a path, each kept once. */
  ghost predicate Orderly(d: Dir)
    decreases d
  {
    && (forall i {:trigger KeptName(d.entries[i])} :: 0 <= i < |d.entries| && KeptName(d.entries[i]).Some? ==>
          IsComponent(KeptName(d.entries[i]).value))
    && (forall i, j {:trigger KeptName(d.entries[i]), KeptName(d.entries[j])} ::
          0 <= i < j < |d.entries| && KeptName(d.entries[i]).Some? ==> KeptName(d.entries[i]) != KeptName(d.entries[j]))
    && (forall i {:trigger d.entries[i].dir} :: 0 <= i < |d.entries| && d.entries[i].Sub? ==> Orderly(d.entries[i].dir))
  }

  /** A root that can be built: clean directories, none named like a part of the root's own path. */
  ghost predicate OrderlyRoot(root: Path, entries: seq<Entry>) {
    && IsPath(root)
    && (forall i :: 0 <= i < |entries| ==>
          var e := entries[i];
          e.Sub? && CleanDir(e.name) && IsComponent(e.name) && !NameInRoot(root, e.name) && Orderly(e.dir))
    && (forall i, j :: 0 <= i < j < |entries| ==> entries[i].name != entries[j].name)
  }

  function FilesAt(d: Dir, segs: seq<string>): seq<Object> {
    match SubDir(d, segs) case None => [] case Some(x) => Files(x.entries)
  }

  function DirAt(entries: seq<Entry>, bucket: string, segs: seq<string>): Option<Dir> {
    match LastBucket(entries, bucket)
    case None => None
    case Some(e) => if e.Sub? then SubDir(e.dir, segs) else None
  }

  /** How many files the disk has at a place. */
  function OnDisk(entries: seq<Entry>, p: Place): nat {
    match DirAt(entries, p.bucket, Walk(p.key))
    case None => 0
    case Some(d) => Count(Files(d.entries), p.fileName)
  }

  // ---------- every file is met once, at its own place ----------

  lemma KeyIs(root: Path, bucket: string, pre: Path, key: string)
    requires IsPath(root + [bucket] + pre) && !NameInRoot(root, bucket)
    ensures KeyAt(bucket, root + [bucket] + pre) == key <==> pre == Walk(key)
  {
    FromBucketExact(root, bucket, pre);
    forall i | 0 <= i < |pre|
      ensures IsComponent(pre[i])
    {
      assert pre[i] == (root + [bucket] + pre)[|root| + 1 + i];
    }
    ComponentsHaveKey(pre);
    WalkKeyOf(pre);
    KeyOfWalk(key);
  }

  lemma {:induction false} TimesItems(bucket: string, key: string, files: seq<Object>, p: Place)
    ensures Times(Items(bucket, key, files), p) == if p.bucket == bucket && p.key == key then Count(files, p.fileName) else 0
  {
    if files != [] {
      var front, last := files[..|files| - 1], files[|files| - 1];
      assert files == front + [last];
      assert Items(bucket, key, files) == Items(bucket, key, front) + [Item(Place(bucket, key, last.fileName), last.rest)];
      TimesStep(Items(bucket, key, front), Item(Place(bucket, key, last.fileName), last.rest), p);
      CountAppend(front, [last], p.fileName);
      TimesItems(bucket, key, front, p);
    }
  }

  /** The way to a place leads through a path of its bucket. */
  predicate Through(bucket: string, pre: Path, p: Place) {
    p.bucket == bucket && pre <= Walk(p.key)
  }

  /** How often a place is met at or below a directory. */
  function CountMet(bucket: string, path: Path, d: Dir, p: Place): nat
    decreases d, |d.entries| + 1
  {
    CountMetBelow(bucket, path, d, |d.entries|, p) +
    if p.bucket == bucket && p.key == KeyAt(bucket, path) then Count(Files(d.entries), p.fileName) else 0
  }

  function CountMetBelow(bucket: string, path: Path, d: Dir, n: nat, p: Place): nat
    requires n <= |d.entries|
    decreases d, n
  {
    if n == 0 then 0 else CountMetBelow(bucket, path, d, n - 1, p) + CountMetIn(bucket, path, d.entries[n - 1], p)
  }

  function CountMetIn(bucket: string, path: Path, e: Entry, p: Place): nat
    decreases e, 0
  {
    if e.Sub? && KeptName(e).Some? then CountMet(bucket, path + [KeptName(e).value], e.dir, p) else 0
  }

  lemma {:induction false} MetCount(bucket: string, path: Path, d: Dir, p: Place)
    ensures Times(Met(bucket, path, d), p) == CountMet(bucket, path, d, p)
    decreases d, |d.entries| + 1
  {
    var key, files := KeyAt(bucket, path), Files(d.entries);
    MetBelowCount(bucket, path, d, |d.entries|, p);
    TimesAppend(MetBelow(bucket, path, d, |d.entries|), Items(bucket, key, files), p);
    TimesItems(bucket, key, files, p);
  }

  lemma {:induction false} MetBelowCount(bucket: string, path: Path, d: Dir, n: nat, p: Place)
    requires n <= |d.entries|
    ensures Times(MetBelow(bucket, path, d, n), p) == CountMetBelow(bucket, path, d, n, p)
    decreases d, n
  {
    if n > 0 {
      MetBelowCount(bucket, path, d, n - 1, p);
      MetInCount(bucket, path, d.entries[n - 1], p);
      TimesAppend(MetBelow(bucket, path, d, n - 1), MetIn(bucket, path, d.entries[n - 1]), p);
    }
  }

  lemma {:induction false} MetInCount(bucket: string, path: Path, e: Entry, p: Place)
    ensures Times(MetIn(bucket, path, e), p) == CountMetIn(bucket, path, e, p)
    decreases e, 0
  {
    if e.Sub? && KeptName(e).Some? {
      MetCount(bucket, path + [KeptName(e).value], e.dir, p);
    }
  }

  /** A directory of a bucket, by its path and by the names that lead to it. */
  ghost predicate Located(root: Path, bucket: string, pre: Path, path: Path) {
    path == root + [bucket] + pre && IsPath(path) && !NameInRoot(root, bucket)
  }

  lemma LocatedBelow(root: Path, bucket: string, pre: Path, path: Path, kept: string)
    requires Located(root, bucket, pre, path) && IsComponent(kept)
    ensures Located(root, bucket, pre + [kept], path + [kept])
  {
    assert root + [bucket] + (pre + [kept]) == path + [kept];
  }

  lemma {:induction false} MetElsewhere(root: Path, bucket: string, pre: Path, path: Path, d: Dir, p: Place)
    requires Located(root, bucket, pre, path) && Orderly(d) && !Through(bucket, pre, p)
    ensures CountMet(bucket, path, d, p) == 0
    decreases d, |d.entries| + 1
  {
    NotBelow(root, bucket, pre, path, d, |d.entries|, p);
    KeyIs(root, bucket, pre, p.key);
  }

  lemma {:induction false} NotBelow(root: Path, bucket: string, pre: Path, path: Path, d: Dir, n: nat, p: Place)
    requires Located(root, bucket, pre, path) && Orderly(d) && n <= |d.entries|
    requires !Through(bucket, pre, p) || pre == Walk(p.key)
    ensures CountMetBelow(bucket, path, d, n, p) == 0
    decreases d, n
  {
    if n > 0 {
      var e := d.entries[n - 1];
      NotBelow(root, bucket, pre, path, d, n - 1, p);
      if e.Sub? && KeptName(e).Some? {
        var kept := KeptName(e).value;
        LocatedBelow(root, bucket, pre, path, kept);
        StepsInto(pre, kept, Walk(p.key));
        MetElsewhere(root, bucket, pre + [kept], path + [kept], e.dir, p);
      }
    }
  }

  /** Below a directory on its way a place is met as often as the disk has it. */
  lemma {:induction false} MetThere(root: Path, bucket: string, pre: Path, path: Path, d: Dir, p: Place)
    requires Located(root, bucket, pre, path) && Orderly(d) && Through(bucket, pre, p)
    ensures CountMet(bucket, path, d, p) == Count(FilesAt(d, Walk(p.key)[|pre|..]), p.fileName)
    decreases d, |d.entries| + 1
  {
    var w := Walk(p.key);
    KeyIs(root, bucket, pre, p.key);
    if pre == w {
      NotBelow(root, bucket, pre, path, d, |d.entries|, p);
    } else {
      BelowMet(root, bucket, pre, path, d, |d.entries|, p);
      assert d.entries[..|d.entries|] == d.entries;
      assert w[|pre|..][1..] == w[|pre| + 1..];
    }
  }

  function CountIn(sub: Option<Dir>, segs: seq<string>, name: string): nat {
    if sub.Some? then Count(FilesAt(sub.value, segs), name) else 0
  }

  lemma {:induction false} BelowMet(root: Path, bucket: string, pre: Path, path: Path, d: Dir, n: nat, p: Place)
    requires Located(root, bucket, pre, path) && Orderly(d) && n <= |d.entries|
    requires Through(bucket, pre, p) && pre != Walk(p.key)
    ensures var w := Walk(p.key);
            CountMetBelow(bucket, path, d, n, p) == CountIn(LastSub(d.entries[..n], w[|pre|]), w[|pre| + 1..], p.fileName)
    decreases d, n
  {
    if n > 0 {
      var e, w := d.entries[n - 1], Walk(p.key);
      BelowMet(root, bucket, pre, path, d, n - 1, p);
      TakeOneMore(d.entries, n - 1);
      LastSubStep(d.entries[..n - 1], e, w[|pre|]);
      if e.Sub? && KeptName(e).Some? {
        MetInThere(root, bucket, pre, path, e, p);
        if KeptName(e).value == w[|pre|] {
          NoneEarlier(d, n - 1);
        }
      }
    }
  }

  /** Of the directories in a listing only the next one on the way has the place below it. */
  lemma {:induction false} MetInThere(root: Path, bucket: string, pre: Path, path: Path, e: Entry, p: Place)
    requires Located(root, bucket, pre, path) && Through(bucket, pre, p) && pre != Walk(p.key)
    requires e.Sub? && KeptName(e).Some? && IsComponent(KeptName(e).value) && Orderly(e.dir)
    ensures CountMetIn(bucket, path, e, p) ==
            if KeptName(e).value == Walk(p.key)[|pre|] then Count(FilesAt(e.dir, Walk(p.key)[|pre| + 1..]), p.fileName) else 0
    decreases e, 0
  {
    var kept, w := KeptName(e).value, Walk(p.key);
    LocatedBelow(root, bucket, pre, path, kept);
    StepsInto(pre, kept, w);
    if kept == w[|pre|] {
      MetThere(root, bucket, pre + [kept], path + [kept], e.dir, p);
    } else {
      MetElsewhere(root, bucket, pre + [kept], path + [kept], e.dir, p);
    }
  }

  lemma StepsInto(pre: Path, kept: string, w: Path)
    ensures pre + [kept] <= w <==> pre < w && w[|pre|] == kept
  {
    if pre + [kept] <= w {
      assert w[|pre|] == (pre + [kept])[|pre|];
      assert w[..|pre|] == (pre + [kept])[..|pre|];
    }
  }

  /** A name kept later was not kept earlier. */
  lemma NoneEarlier(d: Dir, n: nat)
    requires Orderly(d) && n < |d.entries| && KeptName(d.entries[n]).Some?
    ensures LastSub(d.entries[..n], KeptName(d.entries[n]).value).None?
    ensures Count(Files(d.entries[..n]), KeptName(d.entries[n]).value) == 0
  {
    forall j | 0 <= j < n
      ensures KeptName(d.entries[j]) != KeptName(d.entries[n])
    {
    }
    NotKept(d.entries[..n], KeptName(d.entries[n]).value);
  }

  lemma {:induction false} NotKept(entries: seq<Entry>, name: string)
    requires forall j :: 0 <= j < |entries| ==> KeptName(entries[j]) != Some(name)
    ensures LastSub(entries, name).None? && Count(Files(entries), name) == 0
  {
    if entries != [] {
      var n := |entries| - 1;
      NotKept(entries[..n], name);
      CountAppend(Files(entries[..n]), AsFile(entries[n]), name);
      CountAsFile(entries[n], name);
    }
  }

  lemma CountAsFile(e: Entry, name: string)
    ensures Count(AsFile(e), name) == if e.File? && KeptName(e) == Some(name) then 1 else 0
  {
  }

  lemma {:induction false} LastSubAt(entries: seq<Entry>, name: string) returns (i: Option<nat>)
    ensures i.Some? <==> LastSub(entries, name).Some?
    ensures i.Some? ==>
              i.value < |entries| && entries[i.value].Sub? && KeptName(entries[i.value]) == Some(name) &&
              LastSub(entries, name) == Some(entries[i.value].dir)
  {
    i := None;
    if entries != [] {
      var n := |entries| - 1;
      if entries[n].Sub? && KeptName(entries[n]) == Some(name) {
        i := Some(n);
      } else {
        i := LastSubAt(entries[..n], name);
      }
    }
  }

  lemma {:induction false} LastBucketAt(entries: seq<Entry>, bucket: string) returns (i: nat)
    requires LastBucket(entries, bucket).Some?
    ensures i < |entries| && LastBucket(entries, bucket) == Some(entries[i]) && BucketName(entries[i]) == bucket
  {
    i := |entries| - 1;
    if BucketName(entries[i]) != bucket {
      i := LastBucketAt(entries[..i], bucket);
    }
  }

  lemma CleanBucket(e: Entry)
    requires CleanDir(e.name)
    ensures BucketName(e) == e.name
  {
    DirDecision(e.name, true, e.random);
  }

  lemma {:induction false} MetAllTimes(root: Path, entries: seq<Entry>, p: Place)
    requires OrderlyRoot(root, entries)
    ensures Times(MetAll(root, entries), p) == OnDisk(entries, p)
  {
    if entries != [] {
      var n := |entries| - 1;
      MetAllTimes(root, entries[..n], p);
      BucketTimes(root, entries, p);
      TimesAppend(MetAll(root, entries[..n]), Met(entries[n].name, root + [entries[n].name], entries[n].dir), p);
    }
  }

  lemma BucketTimes(root: Path, entries: seq<Entry>, p: Place)
    requires OrderlyRoot(root, entries) && entries != []
    ensures var n := |entries| - 1;
            var e := entries[n];
            && BucketName(e) == e.name
            && OnDisk(entries, p) == OnDisk(entries[..n], p) + Times(Met(e.name, root + [e.name], e.dir), p)
  {
    var n := |entries| - 1;
    var e := entries[n];
    CleanBucket(e);
    MetInBucket(root, e, p);
    forall j | 0 <= j < n
      ensures BucketName(entries[..n][j]) != e.name
    {
      CleanBucket(entries[j]);
    }
    NoBucket(entries[..n], e.name);
    assert entries == entries[..n] + [e];
    OnDiskStep(entries[..n], e, p);
  }

  lemma OnDiskStep(entries: seq<Entry>, e: Entry, p: Place)
    requires LastBucket(entries, e.name).None? && BucketName(e) == e.name && e.Sub?
    ensures OnDisk(entries + [e], p) ==
            OnDisk(entries, p) + if p.bucket == e.name then Count(FilesAt(e.dir, Walk(p.key)), p.fileName) else 0
  {
    LastBucketStep(entries, e, p.bucket);
  }

  lemma MetInBucket(root: Path, e: Entry, p: Place)
    requires IsPath(root) && e.Sub? && IsComponent(e.name) && !NameInRoot(root, e.name) && Orderly(e.dir)
    ensures Times(Met(e.name, root + [e.name], e.dir), p) ==
            if p.bucket == e.name then Count(FilesAt(e.dir, Walk(p.key)), p.fileName) else 0
  {
    var path := root + [e.name];
    assert root + [e.name] + [] == path;
    MetCount(e.name, path, e.dir, p);
    if p.bucket == e.name {
      MetThere(root, e.name, [], path, e.dir, p);
      assert Walk(p.key)[0..] == Walk(p.key);
    } else {
      MetElsewhere(root, e.name, [], path, e.dir, p);
    }
  }

  lemma {:induction false} NoBucket(entries: seq<Entry>, bucket: string)
    requires forall j :: 0 <= j < |entries| ==> BucketName(entries[j]) != bucket
    ensures LastBucket(entries, bucket).None?
  {
    if entries != [] {
      NoBucket(entries[..|entries| - 1], bucket);
    }
  }

  // ---------- what the disk shows ----------

  lemma {:induction false} CountFilesOnce(d: Dir, n: nat, name: string)
    requires Orderly(d) && n <= |d.entries|
    ensures Count(Files(d.entries[..n]), name) <= 1
  {
    if n > 0 {
      CountFilesOnce(d, n - 1, name);
      TakeOneMore(d.entries, n - 1);
      FilesStep(d.entries[..n - 1], d.entries[n - 1]);
      CountAppend(Files(d.entries[..n - 1]), AsFile(d.entries[n - 1]), name);
      CountAsFile(d.entries[n - 1], name);
      if KeptName(d.entries[n - 1]) == Some(name) {
        NoneEarlier(d, n - 1);
      }
    }
  }

  lemma {:induction false} SubDirOrderly(d: Dir, segs: seq<string>)
    requires Orderly(d) && SubDir(d, segs).Some?
    ensures Orderly(SubDir(d, segs).value) && IsPath(segs)
    decreases segs
  {
    if segs != [] {
      var i := LastSubAt(d.entries, segs[0]);
      SubDirOrderly(LastSub(d.entries, segs[0]).value, segs[1..]);
      assert segs == [segs[0]] + segs[1..];
    }
  }

  lemma DirAtOrderly(root: Path, entries: seq<Entry>, bucket: string, segs: seq<string>)
    requires OrderlyRoot(root, entries) && DirAt(entries, bucket, segs).Some?
    ensures Orderly(DirAt(entries, bucket, segs).value) && IsPath(segs)
  {
    var i := LastBucketAt(entries, bucket);
    SubDirOrderly(entries[i].dir, segs);
  }

  lemma OnDiskOnce(root: Path, entries: seq<Entry>, p: Place)
    requires OrderlyRoot(root, entries)
    ensures OnDisk(entries, p) <= 1
  {
    var d := DirAt(entries, p.bucket, Walk(p.key));
    if d.Some? {
      DirAtOrderly(root, entries, p.bucket, Walk(p.key));
      CountFilesOnce(d.value, |d.value.entries|, p.fileName);
      assert d.value.entries[..|d.value.entries|] == d.value.entries;
    }
  }

  lemma {:induction false} CountSameNames(a: seq<Object>, b: seq<Object>, name: string)
    requires |a| == |b| && forall i :: 0 <= i < |a| ==> a[i].fileName == b[i].fileName
    ensures Count(a, name) == Count(b, name)
  {
    if a != [] {
      CountSameNames(a[1..], b[1..], name);
    }
  }

  // ---------- the main results ----------

  /** Lookups succeed exactly for the directories on disk, and give exactly their files, in listing order. */
  lemma BuiltTree(t: Tree, root: Path, entries: seq<Entry>, docs: Docs, bucket: string, segs: seq<string>)
    requires TreeMirrors(t, entries, root, docs)
    ensures View(t, bucket, segs).Some? <==> DirAt(entries, bucket, segs).Some?
    ensures DirAt(entries, bucket, segs).Some? ==>
              var objs, files := View(t, bucket, segs).value, Files(DirAt(entries, bucket, segs).value.entries);
              |objs| == |files| && forall i :: 0 <= i < |objs| ==> objs[i].fileName == files[i].fileName
  {
    assert BucketMirrors(Get(t, bucket), LastBucket(entries, bucket), root, docs, bucket);
    if bucket in t {
      var e := LastBucket(entries, bucket).value;
      assert PathMirrors(t[bucket], e.dir, bucket, root + [e.name], docs, segs);
    }
  }

  lemma BuiltShown(t: Tree, root: Path, entries: seq<Entry>, docs: Docs, p: Place)
    requires TreeMirrors(t, entries, root, docs)
    ensures Shown(t, p) == OnDisk(entries, p)
  {
    BuiltTree(t, root, entries, docs, p.bucket, Walk(p.key));
    var d := DirAt(entries, p.bucket, Walk(p.key));
    if d.Some? {
      CountSameNames(At(t, p.bucket, Walk(p.key)), Files(d.value.entries), p.fileName);
    }
  }

  /** The store keeps exactly the documents it had for files on disk, unchanged; a document inserted for
      a new file is deleted again. */
  lemma BuiltStore(root: Path, entries: seq<Entry>, docs: Docs, nextId: nat)
    requires OrderlyRoot(root, entries) && UniqueIds(Sync(docs, [], nextId))
    ensures var left := Cleaned(Synced(Sync(docs, [], nextId), MetAll(root, entries)));
            && (forall p :: p in left <==> p in docs && OnDisk(entries, p) == 1)
            && (forall p :: p in left ==> left[p] == docs[p])
  {
    CleanedExact(docs, nextId, MetAll(root, entries));
    forall p
      ensures Recorded(docs, MetAll(root, entries), p) <==> p in docs && OnDisk(entries, p) == 1
    {
      MetAllTimes(root, entries, p);
      OnDiskOnce(root, entries, p);
    }
  }

  /** After a build the tree and the store agree exactly when every file had its document beforehand. */
  lemma BuiltAgreement(t: Tree, root: Path, entries: seq<Entry>, docs: Docs, nextId: nat)
    requires OrderlyRoot(root, entries) && UniqueIds(Sync(docs, [], nextId))
    requires TreeMirrors(t, entries, root, Synced(Sync(docs, [], nextId), MetAll(root, entries)).docs)
    ensures Agree(t, Cleaned(Synced(Sync(docs, [], nextId), MetAll(root, entries)))) <==>
            forall p :: OnDisk(entries, p) > 0 ==> p in docs
  {
    var s := Synced(Sync(docs, [], nextId), MetAll(root, entries));
    BuiltStore(root, entries, docs, nextId);
    forall p
      ensures Shown(t, p) == OnDisk(entries, p) <= 1
    {
      BuiltShown(t, root, entries, s.docs, p);
      OnDiskOnce(root, entries, p);
    }
    forall bucket, path | At(t, bucket, path) != []
      ensures HasKey(path)
    {
      BuiltTree(t, root, entries, s.docs, bucket, path);
      DirAtOrderly(root, entries, bucket, path);
      ComponentsHaveKey(path);
    }
  }
}
