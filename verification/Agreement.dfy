/** When the bucket tree and the document store agree, and which changes keep them agreeing. */
module Agreement {
  import opened Wrappers
  import opened Keys
  import opened BucketMap
  import opened LocalStorage

  // ---------- counting names ----------

  function Count(objs: seq<Object>, name: string): nat {
    if objs == [] then 0 else Count(objs[1..], name) + if objs[0].fileName == name then 1 else 0
  }

  lemma {:induction false} CountAppend(a: seq<Object>, b: seq<Object>, name: string)
    ensures Count(a + b, name) == Count(a, name) + Count(b, name)
  {
    if a == [] {
      assert a + b == b;
    } else {
      assert (a + b)[1..] == a[1..] + b;
      CountAppend(a[1..], b, name);
    }
  }

  lemma CountUpdate(objs: seq<Object>, i: nat, x: Object, name: string)
    requires i < |objs|
    ensures Count(objs[i := x], name) + Count([objs[i]], name) == Count(objs, name) + Count([x], name)
  {
    assert objs == objs[..i] + [objs[i]] + objs[i + 1..];
    assert objs[i := x] == objs[..i] + [x] + objs[i + 1..];
    CountAppend(objs[..i] + [objs[i]], objs[i + 1..], name);
    CountAppend(objs[..i], [objs[i]], name);
    CountAppend(objs[..i] + [x], objs[i + 1..], name);
    CountAppend(objs[..i], [x], name);
  }

  lemma {:induction false} CountFound(objs: seq<Object>, name: string)
    ensures FirstNamed(objs, name).Some? <==> Count(objs, name) > 0
  {
    if objs != [] {
      CountFound(objs[1..], name);
    }
  }

  lemma CountRenamed(objs: seq<Object>, from: string, to: string, name: string)
    ensures var n := if Count(objs, from) > 0 then 1 else 0;
            Count(Renamed(objs, from, to), name) ==
            Count(objs, name) + (if name == to then n else 0) - (if name == from then n else 0)
  {
    CountFound(objs, from);
    if FirstNamed(objs, from).Some? {
      var i := FirstNamed(objs, from).value;
      CountUpdate(objs, i, objs[i].(fileName := to), name);
    }
  }

  lemma CountDeleted(objs: seq<Object>, gone: string, name: string)
    ensures Count(Deleted(objs, gone), name) ==
            Count(objs, name) - if name == gone && Count(objs, gone) > 0 then 1 else 0
  {
    CountFound(objs, gone);
    if FirstNamed(objs, gone).Some? {
      var i := FirstNamed(objs, gone).value;
      var front, last := objs[..|objs| - 1], objs[|objs| - 1];
      assert objs == front + [last];
      CountAppend(front, [last], name);
      if i < |front| {
        assert front[i] == objs[i];
        CountUpdate(front, i, last, name);
      }
    }
  }

  lemma CountMember(objs: seq<Object>, i: nat)
    requires i < |objs|
    ensures Count(objs, objs[i].fileName) > 0
  {
    CountFound(objs, objs[i].fileName);
  }

  // ---------- agreement ----------

  function At(t: Tree, bucket: string, path: seq<string>): seq<Object> {
    match View(t, bucket, path) case None => [] case Some(objs) => objs
  }

  /** How often the tree shows a file at a place, and whether the store lists it. */
  function Shown(t: Tree, p: Place): nat {
    Count(At(t, p.bucket, Walk(p.key)), p.fileName)
  }

  function Listed(docs: Docs, p: Place): nat {
    if p in docs then 1 else 0
  }

  /** The (bucket, key, file name) triples of the tree and of the store are the same multiset; in
      particular objects sit only where a key leads. */
  ghost predicate Agree(t: Tree, docs: Docs) {
    && (forall p :: Shown(t, p) == Listed(docs, p))
    && (forall bucket, path :: At(t, bucket, path) != [] ==> HasKey(path))
  }

  /** Keys and names as the watcher reports them: they come from paths, whose components are never
      "." and hold no '/'. */
  predicate Reported(c: Change) {
    match c
    case NameKey(_, from, to) => EditPath(from) == Walk(from) && IsSegment(to) && to != ROOT
    case DeleteKey(_, key) => EditPath(key) == Walk(key)
    case _ => true
  }

  ghost predicate NothingBelow(t: Tree, bucket: string, path: seq<string>) {
    forall q :: q != [] ==> At(t, bucket, path + q) == []
  }

  ghost predicate NothingIn(t: Tree, bucket: string) {
    forall path :: At(t, bucket, path) == []
  }

  /** The changes after which tree and store still agree, told from the tree before the change. */
  ghost predicate Safe(t: Tree, c: Change) {
    match c
    case NewObject(bucket, key, obj) =>
      View(t, bucket, Walk(key)).Some? && Count(At(t, bucket, Walk(key)), obj.fileName) == 0
    case NameObject(bucket, key, from, to) => from == to || Count(At(t, bucket, Walk(key)), from) == 0
    case NameBucket(from, to) => from == to || from !in t || NothingIn(t, to)
    case NameKey(bucket, from, to) =>
      var parent, source := EditParent(from), EditPath(from);
      if View(t, bucket, parent).None? then true
      else if View(t, bucket, parent + [to]).Some? then
        from == to || forall name :: Count(At(t, bucket, source), name) > 0 ==> Count(At(t, bucket, [to]), name) > 0
      else NothingBelow(t, bucket, source) && (parent == [] || At(t, bucket, source) == [])
    case DeleteKey(bucket, key) => NothingBelow(t, bucket, Walk(key))
    case _ => true
  }

  /** Tree and store agree after the change, in whatever order the database visits the documents. */
  ghost predicate Keeps(t: Tree, docs: Docs, c: Change)
    requires Apply(t, c).Changed?
  {
    forall order, id | Visits(docs, UpdateOf(c), order) :: Agree(Apply(t, c).tree, Store(docs, c, order, id))
  }

  lemma AtAfter(t: Tree, c: Change, bucket: string, path: seq<string>)
    requires Apply(t, c).Changed?
    ensures At(Apply(t, c).tree, bucket, path) ==
            match FlatApply(Flat(t), c, bucket, path) case None => [] case Some(objs) => objs
  {
    Refines(t, c, bucket, path);
  }

  lemma SameWalk(k: string, key: string)
    ensures Walk(k) == Walk(key) <==> k == key
  {
    KeyOfWalk(k);
    KeyOfWalk(key);
  }

  // ---------- object changes ----------

  lemma ObjectShown(t: Tree, c: Change, p: Place)
    requires EditsObjects(c)
    ensures var here := p.bucket == c.bucket && p.key == c.key && View(t, c.bucket, Walk(c.key)).Some?;
            Shown(Apply(t, c).tree, p) == Shown(t, p) +
            (if !here then 0 else match c
             case NewObject(_, _, obj) => if obj.fileName == p.fileName then 1 else 0
             case NameObject(_, _, from, to) =>
               if Count(At(t, c.bucket, Walk(c.key)), from) == 0 then 0
               else (if p.fileName == to then 1 else 0) - (if p.fileName == from then 1 else 0)
             case DeleteObject(_, _, name) =>
               if name == p.fileName && Count(At(t, c.bucket, Walk(c.key)), name) > 0 then -1 else 0)
  {
    RefinesObjects(t, c, p.bucket, Walk(p.key));
    SameWalk(p.key, c.key);
    var objs := At(t, p.bucket, Walk(p.key));
    match c
    case NewObject(_, _, obj) => CountAppend(objs, [obj], p.fileName);
    case NameObject(_, _, from, to) => CountRenamed(objs, from, to, p.fileName);
    case DeleteObject(_, _, name) => CountDeleted(objs, name, p.fileName);
  }

  lemma ObjectAgreement(t: Tree, docs: Docs, c: Change, order: seq<Place>, id: nat)
    requires EditsObjects(c) && Agree(t, docs) && Visits(docs, UpdateOf(c), order)
    ensures Agree(Apply(t, c).tree, Store(docs, c, order, id)) <==> Safe(t, c)
  {
    var t', docs' := Apply(t, c).tree, Store(docs, c, order, id);
    var name := match c case NewObject(_, _, obj) => obj.fileName case NameObject(_, _, from, _) => from case DeleteObject(_, _, n) => n;
    var p := Place(c.bucket, c.key, name);
    if Safe(t, c) {
      forall q
        ensures Shown(t', q) == Listed(docs', q)
      {
        ObjectShown(t, c, q);
        assert Shown(t, q) == Listed(docs, q) && Shown(t, p) == Listed(docs, p);
      }
      forall bucket, path | At(t', bucket, path) != []
        ensures HasKey(path)
      {
        AtAfter(t, c, bucket, path);
        KeyOfWalk(c.key);
        assert At(t, bucket, path) != [] ==> HasKey(path);
      }
    } else {
      ObjectShown(t, c, p);
      assert Shown(t, p) == Listed(docs, p);
      assert Shown(t', p) != Listed(docs', p);
    }
  }

  // ---------- changes that touch no object ----------

  lemma QuietAgreement(t: Tree, docs: Docs, c: Change, order: seq<Place>, id: nat)
    requires c.NewKey? || c.NewBucket? || c.DeleteBucket?
    requires Apply(t, c).Changed? && Agree(t, docs) && Visits(docs, UpdateOf(c), order)
    ensures Agree(Apply(t, c).tree, Store(docs, c, order, id))
  {
    var t', docs' := Apply(t, c).tree, Store(docs, c, order, id);
    forall bucket, path
      ensures At(t', bucket, path) == if c.DeleteBucket? && bucket == c.bucket then [] else At(t, bucket, path)
    {
      AtAfter(t, c, bucket, path);
    }
    forall q
      ensures Shown(t', q) == Listed(docs', q)
    {
      assert Shown(t, q) == Listed(docs, q);
    }
  }

  // ---------- deleting a key ----------

  lemma DeleteKeyShown(t: Tree, c: Change)
    requires c.DeleteKey? && Reported(c) && Apply(t, c).Changed?
    ensures forall bucket, q ::
              At(Apply(t, c).tree, bucket, q) == if bucket == c.bucket && Walk(c.key) <= q then [] else At(t, bucket, q)
  {
    forall bucket, q
      ensures At(Apply(t, c).tree, bucket, q) == if bucket == c.bucket && Walk(c.key) <= q then [] else At(t, bucket, q)
    {
      AtAfter(t, c, bucket, q);
    }
  }

  lemma DeleteKeyAgreement(t: Tree, docs: Docs, c: Change, order: seq<Place>, id: nat)
    requires c.DeleteKey? && Reported(c) && Apply(t, c).Changed? && Agree(t, docs) && Visits(docs, UpdateOf(c), order)
    ensures Agree(Apply(t, c).tree, Store(docs, c, order, id)) <==> Safe(t, c)
  {
    if Safe(t, c) {
      DeleteKeyKeeps(t, docs, c, order, id);
    } else {
      DeleteKeyShown(t, c);
      var path := Walk(c.key);
      var q :| q != [] && At(t, c.bucket, path + q) != [];
      var p := PlaceOf(t, docs, c.bucket, path + q);
      SameWalk(p.key, c.key);
      assert path <= path + q;
      assert Shown(Apply(t, c).tree, p) != Listed(Store(docs, c, order, id), p);
    }
  }

  lemma DeleteKeyKeeps(t: Tree, docs: Docs, c: Change, order: seq<Place>, id: nat)
    requires c.DeleteKey? && Reported(c) && Apply(t, c).Changed? && Agree(t, docs) && Visits(docs, UpdateOf(c), order)
    requires Safe(t, c)
    ensures Agree(Apply(t, c).tree, Store(docs, c, order, id))
  {
    forall p
      ensures Shown(Apply(t, c).tree, p) == Listed(Store(docs, c, order, id), p)
    {
      DeleteKeyAt(t, docs, c, order, id, p);
    }
    DeleteKeyShown(t, c);
  }

  lemma DeleteKeyAt(t: Tree, docs: Docs, c: Change, order: seq<Place>, id: nat, p: Place)
    requires c.DeleteKey? && Reported(c) && Apply(t, c).Changed? && Agree(t, docs) && Visits(docs, UpdateOf(c), order)
    requires NothingBelow(t, c.bucket, Walk(c.key))
    ensures Shown(Apply(t, c).tree, p) == Listed(Store(docs, c, order, id), p)
  {
    var q, path := Walk(p.key), Walk(c.key);
    AtAfter(t, c, p.bucket, q);
    SameWalk(p.key, c.key);
    assert Shown(t, p) == Listed(docs, p);
    if p.bucket == c.bucket && path <= q && q != path {
      assert q == path + q[|path|..] && q[|path|..] != [];
    }
  }

  /** A place the store lists because the tree shows an object there. */
  lemma PlaceOf(t: Tree, docs: Docs, bucket: string, path: seq<string>) returns (p: Place)
    requires Agree(t, docs) && At(t, bucket, path) != []
    ensures p.bucket == bucket && Walk(p.key) == path && p in docs
    ensures p.fileName == At(t, bucket, path)[0].fileName
  {
    p := Place(bucket, KeyOf(path), At(t, bucket, path)[0].fileName);
    WalkKeyOf(path);
    CountMember(At(t, bucket, path), 0);
    assert Shown(t, p) == Listed(docs, p);
  }

  // ---------- renaming a bucket ----------

  lemma NameBucketShown(t: Tree, from: string, to: string, bucket: string, path: seq<string>)
    ensures At(Apply(t, NameBucket(from, to)).tree, bucket, path) ==
            if from !in t then At(t, bucket, path)
            else if bucket == to then At(t, from, path)
            else if bucket == from then []
            else At(t, bucket, path)
  {
    AtAfter(t, NameBucket(from, to), bucket, path);
  }

  lemma NameBucketKeeps(t: Tree, docs: Docs, from: string, to: string, order: seq<Place>, id: nat)
    requires Agree(t, docs) && Safe(t, NameBucket(from, to)) && Visits(docs, SetBucket(from, to), order)
    ensures Agree(Apply(t, NameBucket(from, to)).tree, Store(docs, NameBucket(from, to), order, id))
  {
    var c, u := NameBucket(from, to), SetBucket(from, to);
    var t', docs' := Apply(t, c).tree, Store(docs, c, order, id);
    forall p | p in order
      ensures NewPlace(u, p) == p || NewPlace(u, p) !in docs
    {
      assert Shown(t, p) == Listed(docs, p);
      assert Shown(t, NewPlace(u, p)) == Listed(docs, NewPlace(u, p));
    }
    forall q
      ensures Shown(t', q) == Listed(docs', q)
    {
      UpdatedAll(docs, u, order, q);
      NameBucketShown(t, from, to, q.bucket, Walk(q.key));
      var p := q.(bucket := from);
      assert Shown(t, q) == Listed(docs, q) && Shown(t, p) == Listed(docs, p);
      assert p in docs <==> p in order;
      if q.bucket == to {
        assert p in order ==> q == NewPlace(u, p);
      }
    }
    forall bucket, path | At(t', bucket, path) != []
      ensures HasKey(path)
    {
      NameBucketShown(t, from, to, bucket, path);
      assert At(t, bucket, path) != [] || At(t, from, path) != [];
    }
  }

  lemma NameBucketBreaks(t: Tree, docs: Docs, from: string, to: string, order: seq<Place>, id: nat)
    requires Agree(t, docs) && !Safe(t, NameBucket(from, to)) && Visits(docs, SetBucket(from, to), order)
    ensures !Agree(Apply(t, NameBucket(from, to)).tree, Store(docs, NameBucket(from, to), order, id))
  {
    var c, u := NameBucket(from, to), SetBucket(from, to);
    var t', docs' := Apply(t, c).tree, Store(docs, c, order, id);
    var path :| At(t, to, path) != [];
    var p := PlaceOf(t, docs, to, path);
    var q := p.(bucket := from);
    assert Shown(t, q) == Listed(docs, q);
    if q in docs {
      assert NewPlace(u, q) == p;
      var left := UpdateStops(docs, u, order, q);
      NameBucketShown(t, from, to, left.bucket, Walk(left.key));
      assert Shown(t', left) != Listed(docs', left);
    } else {
      UpdatedBounds(docs, u, order, p);
      NameBucketShown(t, from, to, to, path);
      assert Shown(t', p) != Listed(docs', p);
    }
  }

  // ---------- renaming a key ----------

  /** The tree after NameKey, where the source's parent is live and the target is free. */
  lemma NameKeyShown(t: Tree, c: Change, path: seq<string>)
    requires c.NameKey? && Apply(t, c).Changed?
    requires View(t, c.bucket, EditParent(c.from)).Some? && View(t, c.bucket, EditParent(c.from) + [c.to]).None?
    ensures var source, target := EditPath(c.from), EditParent(c.from) + [c.to];
            At(Apply(t, c).tree, c.bucket, path) ==
            if target <= path then At(t, c.bucket, source + path[|target|..])
            else if source <= path then []
            else At(t, c.bucket, path)
  {
    AtAfter(t, c, c.bucket, path);
    assert EditPath(c.from) + [] == EditPath(c.from);
    if EditParent(c.from) + [c.to] == path {
      assert path[|path|..] == [];
    }
  }

  lemma NameKeyElsewhere(t: Tree, c: Change, bucket: string, path: seq<string>)
    requires c.NameKey? && Apply(t, c).Changed?
    requires bucket != c.bucket || View(t, c.bucket, EditParent(c.from)).None?
             || View(t, c.bucket, EditParent(c.from) + [c.to]).Some?
    ensures At(Apply(t, c).tree, bucket, path) == At(t, bucket, path)
  {
    AtAfter(t, c, bucket, path);
  }

  /** A dead path shows nothing at or below it. */
  lemma DeadShowsNothing(t: Tree, bucket: string, path: seq<string>, q: seq<string>)
    requires View(t, bucket, path).None? && path <= q
    ensures At(t, bucket, q) == []
  {
    assert q == path + q[|path|..];
    if View(t, bucket, q).Some? {
      ParentsLive(t, bucket, path, q[|path|..]);
    }
  }

  lemma FirstIsMember(order: seq<Place>)
    ensures order == [] || exists p :: p in order
  {
    assert order == [] || order[0] in order;
  }

  /** Nothing is stored under the key, so nothing is updated. */
  lemma NothingToUpdate(t: Tree, docs: Docs, c: Change, order: seq<Place>, id: nat)
    requires c.NameKey? && Reported(c) && Agree(t, docs) && Visits(docs, UpdateOf(c), order)
    requires At(t, c.bucket, EditPath(c.from)) == []
    ensures order == [] && Store(docs, c, order, id) == docs
  {
    FirstIsMember(order);
    forall p
      ensures p !in order
    {
      assert Shown(t, p) == Listed(docs, p);
    }
  }

  lemma NameKeyTaken(t: Tree, docs: Docs, c: Change, order: seq<Place>, id: nat)
    requires c.NameKey? && Reported(c) && Apply(t, c).Changed? && Agree(t, docs) && Visits(docs, UpdateOf(c), order)
    requires Safe(t, c) && View(t, c.bucket, EditParent(c.from) + [c.to]).Some?
    ensures Agree(Apply(t, c).tree, Store(docs, c, order, id))
  {
    var t', docs', u := Apply(t, c).tree, Store(docs, c, order, id), UpdateOf(c);
    ParentsLive(t, c.bucket, EditParent(c.from), [c.to]);
    forall bucket, path
      ensures At(t', bucket, path) == At(t, bucket, path)
    {
      NameKeyElsewhere(t, c, bucket, path);
    }
    if c.from == c.to {
      forall q
        ensures q in docs' <==> q in docs
      {
        UpdatedAll(docs, u, order, q);
      }
    } else if order != [] {
      var p, q := order[0], NewPlace(u, order[0]);
      assert Shown(t, p) == Listed(docs, p) && Shown(t, q) == Listed(docs, q);
      assert Walk(c.to) == [c.to];
      assert q in docs;
    }
    forall q
      ensures Shown(t', q) == Listed(docs', q)
    {
      assert Shown(t, q) == Listed(docs, q);
    }
  }

  lemma NameKeyFreeShown(t: Tree, docs: Docs, c: Change, bucket: string, path: seq<string>)
    requires c.NameKey? && Reported(c) && Apply(t, c).Changed? && Agree(t, docs)
    requires Safe(t, c) && View(t, c.bucket, EditParent(c.from)).Some?
    requires View(t, c.bucket, EditParent(c.from) + [c.to]).None?
    ensures At(Apply(t, c).tree, bucket, path) ==
            if bucket != c.bucket then At(t, bucket, path)
            else if path == EditParent(c.from) + [c.to] then At(t, c.bucket, EditPath(c.from))
            else if path == EditPath(c.from) then []
            else At(t, bucket, path)
  {
    var source, target := EditPath(c.from), EditParent(c.from) + [c.to];
    if bucket != c.bucket {
      NameKeyElsewhere(t, c, bucket, path);
    } else {
      NameKeyShown(t, c, path);
      assert source + [] == source;
      if target <= path {
        DeadShowsNothing(t, bucket, target, path);
      } else if source <= path {
        assert path == source + path[|source|..];
      }
    }
  }

  lemma NameKeyFree(t: Tree, docs: Docs, c: Change, order: seq<Place>, id: nat)
    requires c.NameKey? && Reported(c) && Apply(t, c).Changed? && Agree(t, docs) && Visits(docs, UpdateOf(c), order)
    requires Safe(t, c) && View(t, c.bucket, EditParent(c.from)).Some?
    requires View(t, c.bucket, EditParent(c.from) + [c.to]).None?
    ensures Agree(Apply(t, c).tree, Store(docs, c, order, id))
  {
    var t', docs' := Apply(t, c).tree, Store(docs, c, order, id);
    var source, target := EditPath(c.from), EditParent(c.from) + [c.to];
    forall bucket, path
      ensures At(t', bucket, path) ==
              if bucket != c.bucket then At(t, bucket, path)
              else if path == target then At(t, c.bucket, source)
              else if path == source then []
              else At(t, bucket, path)
    {
      NameKeyFreeShown(t, docs, c, bucket, path);
    }
    DeadShowsNothing(t, c.bucket, target, target);
    if At(t, c.bucket, source) == [] {
      NothingToUpdate(t, docs, c, order, id);
      forall q
        ensures Shown(t', q) == Listed(docs', q)
      {
        assert Shown(t, q) == Listed(docs, q);
      }
    } else {
      assert target == [c.to] == Walk(c.to) && source == Walk(c.from);
      NameKeyTop(t, docs, c, order, id);
    }
  }

  /** A top-level directory with files, nothing below it, and a free new name. */
  lemma NameKeyTop(t: Tree, docs: Docs, c: Change, order: seq<Place>, id: nat)
    requires c.NameKey? && Reported(c) && Apply(t, c).Changed? && Agree(t, docs) && Visits(docs, UpdateOf(c), order)
    requires At(t, c.bucket, Walk(c.to)) == [] != At(t, c.bucket, Walk(c.from)) && HasKey(Walk(c.to))
    requires forall bucket, path :: At(Apply(t, c).tree, bucket, path) ==
              if bucket != c.bucket then At(t, bucket, path)
              else if path == Walk(c.to) then At(t, c.bucket, Walk(c.from))
              else if path == Walk(c.from) then []
              else At(t, bucket, path)
    ensures Agree(Apply(t, c).tree, Store(docs, c, order, id))
  {
    var t', docs', u := Apply(t, c).tree, Store(docs, c, order, id), UpdateOf(c);
    forall p | p in order
      ensures NewPlace(u, p) !in docs
    {
      assert Shown(t, NewPlace(u, p)) == Listed(docs, NewPlace(u, p));
    }
    forall q
      ensures Shown(t', q) == Listed(docs', q)
    {
      KeyMovedInStore(docs, c, order, q);
      SameWalk(q.key, c.to);
      SameWalk(q.key, c.from);
      assert Shown(t, q) == Listed(docs, q) && Shown(t, q.(key := c.from)) == Listed(docs, q.(key := c.from));
    }
  }

  /** What the store lists once every document of a key has moved to a free one. */
  lemma KeyMovedInStore(docs: Docs, c: Change, order: seq<Place>, q: Place)
    requires c.NameKey? && Visits(docs, UpdateOf(c), order)
    requires forall p :: p in order ==> NewPlace(UpdateOf(c), p) !in docs
    ensures var u := UpdateOf(c);
            q in After(UpdateMany(docs, u, order)) <==>
            (q in docs && !Matches(u, q)) || (q.bucket == c.bucket && q.key == c.to && q.(key := c.from) in docs)
  {
    var u, p := UpdateOf(c), q.(key := c.from);
    UpdatedAll(docs, u, order, q);
    assert q in docs ==> (q in order <==> Matches(u, q));
    if q.bucket == c.bucket && q.key == c.to {
      assert p in order <==> p in docs;
      assert q == NewPlace(u, p);
    }
  }

  lemma NameKeyBreaks(t: Tree, docs: Docs, c: Change) returns (order: seq<Place>)
    requires c.NameKey? && Reported(c) && Apply(t, c).Changed? && Agree(t, docs) && !Safe(t, c)
    ensures Visits(docs, UpdateOf(c), order)
    ensures forall id :: !Agree(Apply(t, c).tree, Store(docs, c, order, id))
  {
    var t', u := Apply(t, c).tree, UpdateOf(c);
    var parent, source, target := EditParent(c.from), EditPath(c.from), EditParent(c.from) + [c.to];
    if View(t, c.bucket, target).Some? {
      var name :| Count(At(t, c.bucket, source), name) > 0 && Count(At(t, c.bucket, [c.to]), name) == 0;
      order := TakenBreaks(t, docs, c, name);
    } else {
      order := OrderOf(Matching(docs, u));
      var docs' := After(UpdateMany(docs, u, order));
      if !NothingBelow(t, c.bucket, source) {
        var q :| q != [] && At(t, c.bucket, source + q) != [];
        var p := PlaceOf(t, docs, c.bucket, source + q);
        SameWalk(p.key, c.from);
        UpdatedBounds(docs, u, order, p);
        NameKeyShown(t, c, source + q);
        if target <= source + q {
          DeadShowsNothing(t, c.bucket, target, source + q);
          assert false;
        }
        assert source <= source + q;
        assert Shown(t', p) != Listed(docs', p);
      } else {
        var p := Place(c.bucket, KeyOf(target), At(t, c.bucket, source)[0].fileName);
        WalkKeyOf(target);
        NameKeyShown(t, c, target);
        assert source + target[|target|..] == source;
        CountMember(At(t, c.bucket, source), 0);
        DeadShowsNothing(t, c.bucket, target, target);
        assert Shown(t, p) == Listed(docs, p);
        UpdatedBounds(docs, u, order, p);
        assert Walk(c.to) == [c.to];
        assert Shown(t', p) != Listed(docs', p);
      }
    }
  }

  /** The target is taken but one document can move: the store follows, the tree does not. */
  lemma TakenBreaks(t: Tree, docs: Docs, c: Change, name: string) returns (order: seq<Place>)
    requires c.NameKey? && Reported(c) && Apply(t, c).Changed? && Agree(t, docs) && c.from != c.to
    requires View(t, c.bucket, EditParent(c.from) + [c.to]).Some?
    requires Count(At(t, c.bucket, EditPath(c.from)), name) > 0 && Count(At(t, c.bucket, [c.to]), name) == 0
    ensures Visits(docs, UpdateOf(c), order)
    ensures forall id :: !Agree(Apply(t, c).tree, Store(docs, c, order, id))
  {
    var t', u := Apply(t, c).tree, UpdateOf(c);
    var p := Place(c.bucket, c.from, name);
    var q := NewPlace(u, p);
    assert Walk(c.to) == [c.to];
    assert Shown(t, p) == Listed(docs, p) && Shown(t, q) == Listed(docs, q);
    var rest := OrderOf(Matching(docs, u) - {p});
    order := [p] + rest;
    var next := (docs - {p})[q := docs[p]];
    assert order[1..] == rest;
    assert Visiting(docs, u, order);
    VisitRest(docs, u, order);
    UpdatedBounds(next, u, rest, p);
    var docs' := After(UpdateMany(docs, u, order));
    ParentsLive(t, c.bucket, EditParent(c.from), [c.to]);
    NameKeyElsewhere(t, c, c.bucket, Walk(c.from));
    assert Shown(t', p) != Listed(docs', p);
  }

  /** Some order in which a set can be visited. */
  lemma {:induction false} OrderOf(s: set<Place>) returns (order: seq<Place>)
    ensures forall p :: p in order <==> p in s
    ensures forall i, j :: 0 <= i < j < |order| ==> order[i] != order[j]
  {
    if s == {} {
      order := [];
    } else {
      var p :| p in s;
      var rest := OrderOf(s - {p});
      order := [p] + rest;
    }
  }

  // ---------- the main results ----------

  /** After a change that returns normally, tree and store still agree in every visiting order exactly
      when the change is safe. */
  lemma StepAgreement(t: Tree, docs: Docs, c: Change)
    requires Agree(t, docs) && Reported(c) && Apply(t, c).Changed?
    ensures Keeps(t, docs, c) <==> Safe(t, c)
  {
    if Safe(t, c) {
      forall order, id | Visits(docs, UpdateOf(c), order)
        ensures Agree(Apply(t, c).tree, Store(docs, c, order, id))
      {
        SafeStep(t, docs, c, order, id);
      }
    } else if c.NameKey? {
      var order := NameKeyBreaks(t, docs, c);
      assert !Agree(Apply(t, c).tree, Store(docs, c, order, 0));
    } else {
      var order := OrderOf(Matching(docs, UpdateOf(c)));
      assert Visits(docs, UpdateOf(c), order);
      if EditsObjects(c) {
        ObjectAgreement(t, docs, c, order, 0);
      } else if c.DeleteKey? {
        DeleteKeyAgreement(t, docs, c, order, 0);
      } else {
        NameBucketBreaks(t, docs, c.from, c.to, order, 0);
      }
      assert !Agree(Apply(t, c).tree, Store(docs, c, order, 0));
    }
  }

  lemma SafeStep(t: Tree, docs: Docs, c: Change, order: seq<Place>, id: nat)
    requires Agree(t, docs) && Reported(c) && Apply(t, c).Changed? && Safe(t, c) && Visits(docs, UpdateOf(c), order)
    ensures Agree(Apply(t, c).tree, Store(docs, c, order, id))
  {
    if EditsObjects(c) {
      ObjectAgreement(t, docs, c, order, id);
    } else if c.DeleteKey? {
      DeleteKeyAgreement(t, docs, c, order, id);
    } else if c.NameBucket? {
      NameBucketKeeps(t, docs, c.from, c.to, order, id);
    } else if c.NameKey? {
      if View(t, c.bucket, EditParent(c.from)).None? {
        DeadShowsNothing(t, c.bucket, EditParent(c.from), EditPath(c.from));
        NothingToUpdate(t, docs, c, order, id);
        forall bucket, path
          ensures At(Apply(t, c).tree, bucket, path) == At(t, bucket, path)
        {
          NameKeyElsewhere(t, c, bucket, path);
        }
        forall q
          ensures Shown(Apply(t, c).tree, q) == Listed(docs, q)
        {
          assert Shown(t, q) == Listed(docs, q);
        }
      } else if View(t, c.bucket, EditParent(c.from) + [c.to]).Some? {
        NameKeyTaken(t, docs, c, order, id);
      } else {
        NameKeyFree(t, docs, c, order, id);
      }
    } else {
      QuietAgreement(t, docs, c, order, id);
    }
  }

  /** One handled message: the change, the database's visiting order and the id of a new document. */
  datatype Message = Message(change: Change, order: seq<Place>, id: nat)

  /** A run of safe changes, none of which panics. */
  ghost predicate SafeRun(t: Tree, docs: Docs, run: seq<Message>)
    decreases run
  {
    run == [] ||
    var c := run[0].change;
    && Reported(c) && Safe(t, c) && Apply(t, c).Changed?
    && Visits(docs, UpdateOf(c), run[0].order)
    && SafeRun(Apply(t, c).tree, Store(docs, c, run[0].order, run[0].id), run[1..])
  }

  ghost function TreeAfter(t: Tree, run: seq<Message>): Tree
    decreases run
  {
    if run == [] || Apply(t, run[0].change).Panicked? then t else TreeAfter(Apply(t, run[0].change).tree, run[1..])
  }

  ghost function DocsAfter(docs: Docs, run: seq<Message>): Docs
    decreases run
  {
    if run == [] || !Visits(docs, UpdateOf(run[0].change), run[0].order) then docs
    else DocsAfter(Store(docs, run[0].change, run[0].order, run[0].id), run[1..])
  }

  /** Every run of safe changes keeps tree and store agreeing. */
  lemma {:induction false} RunAgreement(t: Tree, docs: Docs, run: seq<Message>)
    requires Agree(t, docs) && SafeRun(t, docs, run)
    ensures Agree(TreeAfter(t, run), DocsAfter(docs, run))
    decreases run
  {
    if run != [] {
      var m := run[0];
      SafeStep(t, docs, m.change, m.order, m.id);
      RunAgreement(Apply(t, m.change).tree, Store(docs, m.change, m.order, m.id), run[1..]);
    }
  }

  // ---------- where the store falls behind ----------

  const FILE: Object := Object("f", 0)
  const INNER: KeyEntry := KeyEntry(Some([FILE]), None)
  const OUTER: KeyEntry := KeyEntry(None, Some(map["e" := INNER]))
  const ROOT_ENTRY: KeyEntry := KeyEntry(None, Some(map["d" := OUTER]))

  /** A bucket "b" with a file "f" in directory "d/e". */
  const NESTED: Tree := map["b" := ROOT_ENTRY]

  const NESTED_DOCS: Docs := map[Place("b", "d/e", "f") := Document(0, 0, None)]

  lemma NestedView(bucket: string, path: seq<string>)
    ensures View(NESTED, bucket, path) ==
            if bucket != "b" then None
            else if path == [] || path == ["d"] then Some([])
            else if path == ["d", "e"] then Some([FILE])
            else None
  {
    if path != [] {
      var q := path[1..];
      assert path == [path[0]] + q;
      ChildView(ROOT_ENTRY, path[0], q);
      if q != [] {
        assert q == [q[0]] + q[1..];
        ChildView(OUTER, q[0], q[1..]);
        assert path == [path[0], q[0]] + q[1..];
      }
    }
  }

  lemma NestedAgrees()
    ensures Agree(NESTED, NESTED_DOCS)
    ensures Walk("d/e") == ["d", "e"] == EditPath("d/e") && EditParent("d/e") == ["d"]
  {
    RSplitOnceAt("d", "e");
    assert "d" + "/" + "e" == "d/e";
    assert Walk("d/e") == ["d", "e"];
    forall bucket, path | At(NESTED, bucket, path) != []
      ensures HasKey(path)
    {
      NestedView(bucket, path);
      KeyOfWalk("d/e");
    }
    forall p
      ensures Shown(NESTED, p) == Listed(NESTED_DOCS, p)
    {
      NestedShown(p);
    }
  }

  lemma NestedShown(p: Place)
    requires Walk("d/e") == ["d", "e"]
    ensures Shown(NESTED, p) == Listed(NESTED_DOCS, p)
  {
    NestedView(p.bucket, Walk(p.key));
    SameWalk(p.key, "d/e");
    assert Count([FILE], p.fileName) == if p.fileName == "f" then 1 else 0;
  }

  /** Renaming a file, renaming a nested directory and deleting a directory that has one below it
      leave the store behind the tree. */
  lemma StoreFallsBehind()
    ensures Agree(NESTED, NESTED_DOCS)
    ensures Apply(NESTED, NameObject("b", "d/e", "f", "g")).Changed? && !Keeps(NESTED, NESTED_DOCS, NameObject("b", "d/e", "f", "g"))
    ensures Apply(NESTED, NameKey("b", "d/e", "x")).Changed? && !Keeps(NESTED, NESTED_DOCS, NameKey("b", "d/e", "x"))
    ensures Apply(NESTED, DeleteKey("b", "d")).Changed? && !Keeps(NESTED, NESTED_DOCS, DeleteKey("b", "d"))
  {
    NestedAgrees();
    FileRenameBreaks();
    NestedRenameBreaks();
    ParentDeleteBreaks();
  }

  lemma FileRenameBreaks()
    requires Agree(NESTED, NESTED_DOCS) && Walk("d/e") == ["d", "e"]
    ensures var c := NameObject("b", "d/e", "f", "g"); Apply(NESTED, c).Changed? && !Keeps(NESTED, NESTED_DOCS, c)
  {
    NestedView("b", ["d", "e"]);
    CountMember([FILE], 0);
    StepAgreement(NESTED, NESTED_DOCS, NameObject("b", "d/e", "f", "g"));
  }

  lemma NestedRenameBreaks()
    requires Agree(NESTED, NESTED_DOCS) && Walk("d/e") == ["d", "e"] == EditPath("d/e") && EditParent("d/e") == ["d"]
    ensures var c := NameKey("b", "d/e", "x"); Apply(NESTED, c).Changed? && !Keeps(NESTED, NESTED_DOCS, c)
  {
    var c := NameKey("b", "d/e", "x");
    NestedView("b", ["d"]);
    NestedView("b", ["d", "e"]);
    NestedView("b", ["d"] + ["x"]);
    ChildView(ROOT_ENTRY, "d", []);
    assert GetEntry(NESTED, "b", ["d"]) == Some(OUTER) by {
      assert ["d"][1..] == [];
      assert Find(OUTER, []) == Some(OUTER);
    }
    assert !Safe(NESTED, c);
    StepAgreement(NESTED, NESTED_DOCS, c);
  }

  lemma ParentDeleteBreaks()
    requires Agree(NESTED, NESTED_DOCS)
    ensures var c := DeleteKey("b", "d"); Apply(NESTED, c).Changed? && !Keeps(NESTED, NESTED_DOCS, c)
  {
    var c := DeleteKey("b", "d");
    assert EditParent("d") == [] && Walk("d") == ["d"] == EditPath("d");
    NestedView("b", ["d"] + ["e"]);
    assert At(NESTED, "b", ["d"] + ["e"]) != [];
    assert !NothingBelow(NESTED, "b", ["d"]);
    StepAgreement(NESTED, NESTED_DOCS, c);
  }
}
