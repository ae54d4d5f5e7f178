/** The bucket tree: one entry per directory, edited in place by changes. */
module BucketMap {
  import opened Wrappers
  import opened Keys

  /** A file; everything but its name is opaque here. */
  datatype Object = Object(fileName: string, rest: nat)

  datatype KeyEntry = KeyEntry(objects: Option<seq<Object>>, keys: Option<map<string, KeyEntry>>)

  const EMPTY: KeyEntry := KeyEntry(None, None)

  type Tree = map<string, KeyEntry>

  datatype Change =
    | NewObject(bucket: string, key: string, obj: Object)
    | NewKey(bucket: string, key: string)
    | NewBucket(bucket: string)
    | NameObject(bucket: string, key: string, from: string, to: string)
    | NameBucket(from: string, to: string)
    | NameKey(bucket: string, from: string, to: string)
    | DeleteObject(bucket: string, key: string, fileName: string)
    | DeleteKey(bucket: string, key: string)
    | DeleteBucket(bucket: string)

  /** A change either leaves a tree or panics before it touches one. */
  datatype Outcome = Changed(tree: Tree) | Panicked

  // ---------- looking up and writing back ----------

  function Child(e: KeyEntry, seg: string): Option<KeyEntry> {
    if e.keys.Some? && seg in e.keys.value then Some(e.keys.value[seg]) else None
  }

  function Find(e: KeyEntry, path: seq<string>): Option<KeyEntry>
    decreases path
  {
    if path == [] then Some(e)
    else match Child(e, path[0])
      case None => None
      case Some(c) => Find(c, path[1..])
  }

  function GetEntry(t: Tree, bucket: string, path: seq<string>): Option<KeyEntry> {
    if bucket in t then Find(t[bucket], path) else None
  }

  function WithChild(e: KeyEntry, seg: string, c: KeyEntry): KeyEntry
    requires e.keys.Some?
  {
    e.(keys := Some(e.keys.value[seg := c]))
  }

  function WithoutChild(e: KeyEntry, seg: string): KeyEntry
    requires e.keys.Some?
  {
    e.(keys := Some(e.keys.value - {seg}))
  }

  /** The entry with the one at `path` replaced: a write through a reference into the tree. */
  function Put(e: KeyEntry, path: seq<string>, x: KeyEntry): KeyEntry
    requires Find(e, path).Some?
    decreases path
  {
    if path == [] then x else WithChild(e, path[0], Put(Child(e, path[0]).value, path[1..], x))
  }

  function PutEntry(t: Tree, bucket: string, path: seq<string>, x: KeyEntry): Tree
    requires GetEntry(t, bucket, path).Some?
  {
    t[bucket := Put(t[bucket], path, x)]
  }

  function Objects(e: KeyEntry): seq<Object> {
    if e.objects.Some? then e.objects.value else []
  }

  /** The first object of that name. */
  function FirstNamed(objs: seq<Object>, name: string): (i: Option<nat>)
    ensures i.Some? ==> i.value < |objs| && objs[i.value].fileName == name
    ensures i.Some? ==> forall j :: 0 <= j < i.value ==> objs[j].fileName != name
    ensures i.None? ==> forall j :: 0 <= j < |objs| ==> objs[j].fileName != name
  {
    if objs == [] then None
    else if objs[0].fileName == name then Some(0)
    else match FirstNamed(objs[1..], name)
      case None => None
      case Some(i) => Some(i + 1)
  }

  /** Removes position `i` by moving the last object into it. */
  function SwapRemove(objs: seq<Object>, i: nat): (r: seq<Object>)
    requires i < |objs|
    ensures multiset(r) == multiset(objs) - multiset{objs[i]}
  {
    var last := objs[|objs| - 1];
    assert objs == objs[..|objs| - 1] + [last];
    if i == |objs| - 1 then objs[..i]
    else
      var front := objs[..|objs| - 1];
      assert objs == front[..i] + [objs[i]] + front[i + 1..] + [last];
      assert front[i := last] == front[..i] + [last] + front[i + 1..];
      front[i := last]
  }

  /** The first object named `from` gets another name and keeps everything else; no other object changes. */
  function Renamed(objs: seq<Object>, from: string, to: string): (r: seq<Object>)
    ensures |r| == |objs|
    ensures forall j :: 0 <= j < |objs| ==>
              if objs[j].fileName == from && (forall i :: 0 <= i < j ==> objs[i].fileName != from)
              then r[j].fileName == to && r[j].rest == objs[j].rest
              else r[j] == objs[j]
  {
    match FirstNamed(objs, from)
    case None => objs
    case Some(i) => objs[i := objs[i].(fileName := to)]
  }

  /** The list without the first object of that name, in whatever order; or the same list. */
  function Deleted(objs: seq<Object>, name: string): (r: seq<Object>)
    ensures FirstNamed(objs, name).None? ==> r == objs
    ensures FirstNamed(objs, name).Some? ==> multiset(r) == multiset(objs) - multiset{objs[FirstNamed(objs, name).value]}
  {
    match FirstNamed(objs, name)
    case None => objs
    case Some(i) => SwapRemove(objs, i)
  }

  // ---------- the nine changes ----------

  function AddKey(e: KeyEntry, seg: string): KeyEntry
    requires e.keys.Some?
  {
    if seg in e.keys.value then e else WithChild(e, seg, EMPTY)
  }

  function MoveKey(e: KeyEntry, from: string, to: string): KeyEntry
    requires e.keys.Some?
  {
    if to in e.keys.value then e
    else WithChild(WithoutChild(e, from), to, if from in e.keys.value then e.keys.value[from] else EMPTY)
  }

  /** Changes that edit the children of the entry above a key. */
  predicate EditsKeys(c: Change) {
    c.NewKey? || c.NameKey? || c.DeleteKey?
  }

  function EditedKey(c: Change): string
    requires EditsKeys(c)
  {
    if c.NameKey? then c.from else c.key
  }

  function EditKeys(e: KeyEntry, c: Change): KeyEntry
    requires EditsKeys(c) && e.keys.Some?
  {
    match c
    case NewKey(_, key) => AddKey(e, EditName(key))
    case NameKey(_, from, to) => MoveKey(e, EditName(from), to)
    case DeleteKey(_, key) => WithoutChild(e, EditName(key))
  }

  /** Changes that edit the objects of the entry a key names. */
  predicate EditsObjects(c: Change) {
    c.NewObject? || c.NameObject? || c.DeleteObject?
  }

  function EditObjects(e: KeyEntry, c: Change): KeyEntry
    requires EditsObjects(c)
  {
    match c
    case NewObject(_, _, obj) => e.(objects := Some(Objects(e) + [obj]))
    case NameObject(_, _, from, to) =>
      if e.objects.None? then e else e.(objects := Some(Renamed(e.objects.value, from, to)))
    case DeleteObject(_, _, name) =>
      if e.objects.None? then e else e.(objects := Some(Deleted(e.objects.value, name)))
  }

  function Apply(t: Tree, c: Change): Outcome {
    if EditsObjects(c) then
      match GetEntry(t, c.bucket, Walk(c.key))
      case None => Changed(t)
      case Some(e) => Changed(PutEntry(t, c.bucket, Walk(c.key), EditObjects(e, c)))
    else if EditsKeys(c) then
      var parent := EditParent(EditedKey(c));
      match GetEntry(t, c.bucket, parent)
      case None => Changed(t)
      case Some(e) => if e.keys.None? then Panicked else Changed(PutEntry(t, c.bucket, parent, EditKeys(e, c)))
    else if c.NewBucket? then Changed(if c.bucket in t then t else t[c.bucket := EMPTY])
    else if c.NameBucket? then Changed(if c.from in t then (t - {c.from})[c.to := t[c.from]] else t)
    else Changed(t - {c.bucket})
  }

  // ---------- the flat view ----------

  /** What the tree stands for: for every (bucket, path) that is a live directory, its objects. */
  type FlatView = (string, seq<string>) -> Option<seq<Object>>

  function EntryView(e: KeyEntry, path: seq<string>): Option<seq<Object>> {
    match Find(e, path)
    case None => None
    case Some(x) => Some(Objects(x))
  }

  function View(t: Tree, bucket: string, path: seq<string>): Option<seq<Object>> {
    if bucket in t then EntryView(t[bucket], path) else None
  }

  function Flat(t: Tree): FlatView {
    (bucket: string, path: seq<string>) => View(t, bucket, path)
  }

  /** What each change makes of the flat view, path by path. */
  function FlatApply(v: FlatView, c: Change, bucket: string, path: seq<string>): Option<seq<Object>> {
    match c
    case NewObject(b, key, obj) =>
      if bucket == b && path == Walk(key) && v(b, path).Some? then Some(v(b, path).value + [obj]) else v(bucket, path)
    case NewKey(b, key) =>
      if bucket == b && path == EditPath(key) && v(b, path).None? && v(b, EditParent(key)).Some? then Some([])
      else v(bucket, path)
    case NewBucket(b) =>
      if bucket == b && path == [] && v(b, []).None? then Some([]) else v(bucket, path)
    case NameObject(b, key, from, to) =>
      if bucket == b && path == Walk(key) && v(b, path).Some? then Some(Renamed(v(b, path).value, from, to))
      else v(bucket, path)
    case NameBucket(from, to) =>
      if v(from, []).None? then v(bucket, path)
      else if bucket == to then v(from, path)
      else if bucket == from then None
      else v(bucket, path)
    case NameKey(b, from, to) =>
      var source, target := EditPath(from), EditParent(from) + [to];
      if bucket != b || v(b, EditParent(from)).None? || v(b, target).Some? then v(bucket, path)
      else if target <= path then
        if path == target && v(b, source).None? then Some([]) else v(b, source + path[|target|..])
      else if source <= path then None
      else v(bucket, path)
    case DeleteObject(b, key, name) =>
      if bucket == b && path == Walk(key) && v(b, path).Some? then Some(Deleted(v(b, path).value, name))
      else v(bucket, path)
    case DeleteKey(b, key) =>
      if bucket == b && EditPath(key) <= path then None else v(bucket, path)
    case DeleteBucket(b) =>
      if bucket == b then None else v(bucket, path)
  }

  /** Directories below a dead path are dead. */
  lemma {:induction false} PrefixClosed(e: KeyEntry, path: seq<string>, more: seq<string>)
    requires EntryView(e, path).None?
    ensures EntryView(e, path + more).None?
    decreases path
  {
    if Child(e, path[0]).Some? {
      PrefixClosed(Child(e, path[0]).value, path[1..], more);
      assert (path + more)[1..] == path[1..] + more;
    }
    assert (path + more)[0] == path[0];
  }

  lemma {:induction false} FindBelow(e: KeyEntry, path: seq<string>, more: seq<string>)
    requires Find(e, path).Some?
    ensures Find(e, path + more) == Find(Find(e, path).value, more)
    decreases path
  {
    if path == [] {
      assert path + more == more;
    } else {
      FindBelow(Child(e, path[0]).value, path[1..], more);
      assert (path + more)[1..] == path[1..] + more;
    }
  }

  /** A write at `path` shows at and below `path`, and nowhere else. */
  lemma {:induction false} ViewPut(e: KeyEntry, path: seq<string>, x: KeyEntry, q: seq<string>)
    requires Find(e, path).Some?
    ensures EntryView(Put(e, path, x), q) == if path <= q then EntryView(x, q[|path|..]) else EntryView(e, q)
    decreases path
  {
    if path != [] && q != [] && q[0] == path[0] {
      ViewPut(Child(e, path[0]).value, path[1..], x, q[1..]);
      assert path <= q <==> path[1..] <= q[1..] by {
        assert path == [path[0]] + path[1..] && q == [q[0]] + q[1..];
      }
      if path <= q {
        assert q[1..][|path| - 1..] == q[|path|..];
      }
    }
  }

  /** An edit of the children of the entry at `parent`. */
  lemma ViewEdit(e: KeyEntry, parent: seq<string>, x: KeyEntry, q: seq<string>)
    requires Find(e, parent).Some? && Objects(x) == Objects(Find(e, parent).value)
    ensures EntryView(Put(e, parent, x), q) ==
            if parent <= q && parent != q then EntryView(x, q[|parent|..]) else EntryView(e, q)
  {
    ViewPut(e, parent, x, q);
    if parent == q {
      assert q[|parent|..] == [];
    }
  }

  lemma ViewBelow(e: KeyEntry, parent: seq<string>, q: seq<string>)
    requires Find(e, parent).Some? && parent <= q
    ensures EntryView(e, q) == EntryView(Find(e, parent).value, q[|parent|..])
  {
    FindBelow(e, parent, q[|parent|..]);
    assert parent + q[|parent|..] == q;
  }

  /** What an edit of one entry's children means below that entry. */
  lemma EditedBelow(e: KeyEntry, c: Change, q: seq<string>)
    requires EditsKeys(c) && e.keys.Some? && q != []
    ensures EntryView(EditKeys(e, c), q) ==
            match c
            case NewKey(_, key) => if q == [EditName(key)] && EntryView(e, q).None? then Some([]) else EntryView(e, q)
            case NameKey(_, from, to) =>
              if EntryView(e, [to]).Some? then EntryView(e, q)
              else if q[0] == to then
                if q == [to] && EntryView(e, [EditName(from)]).None? then Some([]) else EntryView(e, [EditName(from)] + q[1..])
              else if q[0] == EditName(from) then None
              else EntryView(e, q)
            case DeleteKey(_, key) => if q[0] == EditName(key) then None else EntryView(e, q)
  {
    var x := EditKeys(e, c);
    assert q == [q[0]] + q[1..];
    ChildView(x, q[0], q[1..]);
    ChildView(e, q[0], q[1..]);
    match c
    case NewKey(_, key) =>
      ChildView(e, EditName(key), []);
    case NameKey(_, from, to) =>
      ChildView(e, to, []);
      ChildView(e, EditName(from), []);
      ChildView(e, EditName(from), q[1..]);
    case DeleteKey(_, _) =>
  }

  lemma ChildView(e: KeyEntry, seg: string, q: seq<string>)
    ensures EntryView(e, [seg] + q) == match Child(e, seg) case None => None case Some(x) => EntryView(x, q)
    ensures EntryView(e, [seg]).Some? <==> Child(e, seg).Some?
    ensures EntryView(EMPTY, q) == if q == [] then Some([]) else None
  {
    assert ([seg] + q)[1..] == q;
    assert [seg][1..] == [];
    if Child(e, seg).Some? {
      assert Find(Child(e, seg).value, []).Some?;
    }
  }

  /** The tree refines its flat view: a change that does not panic does to the view exactly what the
      flat change says, at every path of every bucket. */
  lemma Refines(t: Tree, c: Change, bucket: string, path: seq<string>)
    requires Apply(t, c).Changed?
    ensures View(Apply(t, c).tree, bucket, path) == FlatApply(Flat(t), c, bucket, path)
  {
    if EditsObjects(c) {
      RefinesObjects(t, c, bucket, path);
    } else if EditsKeys(c) {
      RefinesKeys(t, c, bucket, path);
    } else {
      assert forall e: KeyEntry :: EntryView(e, []).Some?;
      assert EntryView(EMPTY, path) == if path == [] then Some([]) else None;
    }
  }

  lemma RefinesObjects(t: Tree, c: Change, bucket: string, path: seq<string>)
    requires EditsObjects(c)
    ensures Apply(t, c).Changed?
    ensures View(Apply(t, c).tree, bucket, path) == FlatApply(Flat(t), c, bucket, path)
  {
    var at := Walk(c.key);
    if GetEntry(t, c.bucket, at).Some? && bucket == c.bucket {
      var e := GetEntry(t, c.bucket, at).value;
      var x := EditObjects(e, c);
      ViewPut(t[c.bucket], at, x, path);
      if at <= path {
        ViewBelow(t[c.bucket], at, path);
        var q := path[|at|..];
        assert at + q == path;
        SameBelow(e, x, q);
      }
    }
  }

  /** Entries with the same children agree below. */
  lemma SameBelow(e: KeyEntry, x: KeyEntry, q: seq<string>)
    requires e.keys == x.keys
    ensures EntryView(e, []) == Some(Objects(e)) && EntryView(x, []) == Some(Objects(x))
    ensures q != [] ==> EntryView(x, q) == EntryView(e, q)
  {
  }

  lemma RefinesKeys(t: Tree, c: Change, bucket: string, path: seq<string>)
    requires EditsKeys(c) && Apply(t, c).Changed?
    ensures View(Apply(t, c).tree, bucket, path) == FlatApply(Flat(t), c, bucket, path)
  {
    var parent, name := EditParent(EditedKey(c)), EditName(EditedKey(c));
    assert EditPath(EditedKey(c)) == parent + [name];
    if bucket == c.bucket {
      if GetEntry(t, c.bucket, parent).None? {
        DeadParent(t, c, path);
      } else {
        var root, e := t[c.bucket], GetEntry(t, c.bucket, parent).value;
        ViewEdit(root, parent, EditKeys(e, c), path);
        if parent <= path && parent != path {
          RefinesBelow(t, c, e, path);
        } else {
          assert !(parent + [name] <= path);
          assert c.NameKey? ==> !(parent + [c.to] <= path);
        }
      }
    }
  }

  /** An edit below a dead entry changes nothing. */
  lemma DeadParent(t: Tree, c: Change, path: seq<string>)
    requires EditsKeys(c) && GetEntry(t, c.bucket, EditParent(EditedKey(c))).None?
    ensures FlatApply(Flat(t), c, c.bucket, path) == View(t, c.bucket, path)
  {
    var parent := EditParent(EditedKey(c));
    if c.bucket in t && parent <= path {
      PrefixClosed(t[c.bucket], parent, path[|parent|..]);
      assert parent + path[|parent|..] == path;
    }
  }

  /** The paths below the edited entry. */
  lemma RefinesBelow(t: Tree, c: Change, e: KeyEntry, path: seq<string>)
    requires EditsKeys(c)
    requires var parent := EditParent(EditedKey(c));
             GetEntry(t, c.bucket, parent) == Some(e) && e.keys.Some? && parent <= path && parent != path
    ensures EntryView(EditKeys(e, c), path[|EditParent(EditedKey(c))|..]) == FlatApply(Flat(t), c, c.bucket, path)
  {
    var parent, name := EditParent(EditedKey(c)), EditName(EditedKey(c));
    var q := path[|parent|..];
    assert path == parent + q && EditPath(EditedKey(c)) == parent + [name];
    EditedBelow(e, c, q);
    Below(t, c.bucket, parent, e, q);
    Below(t, c.bucket, parent, e, [name]);
    Starts(parent, name, q);
    if c.NameKey? {
      Below(t, c.bucket, parent, e, []);
      assert parent + [] == parent;
      Starts(parent, c.to, q);
      Below(t, c.bucket, parent, e, [c.to]);
      Below(t, c.bucket, parent, e, [name] + q[1..]);
      assert parent + [name] + q[1..] == parent + ([name] + q[1..]);
    } else if c.NewKey? {
      Below(t, c.bucket, parent, e, []);
      assert parent + [] == parent;
    }
  }

  /** A path below the entry at `parent`, seen from the entry. */
  lemma Below(t: Tree, bucket: string, parent: seq<string>, e: KeyEntry, q: seq<string>)
    requires GetEntry(t, bucket, parent) == Some(e)
    ensures Flat(t)(bucket, parent + q) == EntryView(e, q)
  {
    FindBelow(t[bucket], parent, q);
  }

  lemma Starts(parent: seq<string>, name: string, q: seq<string>)
    requires q != []
    ensures parent + [name] <= parent + q <==> q[0] == name
    ensures parent + [name] == parent + q <==> q == [name]
    ensures (parent + q)[|parent + [name]|..] == q[1..]
  {
    var p := parent + q;
    assert p[|parent|] == q[0];
    assert (parent + [name])[|parent|] == name;
    if q[0] == name {
      assert p[..|parent| + 1] == parent + [name];
    }
    if parent + [name] == p {
      assert q == p[|parent|..] == [name];
    }
  }

  /** Every directory above a live one is live. */
  lemma ParentsLive(t: Tree, bucket: string, path: seq<string>, more: seq<string>)
    requires View(t, bucket, path + more).Some?
    ensures View(t, bucket, path).Some?
  {
    if EntryView(t[bucket], path).None? {
      PrefixClosed(t[bucket], path, more);
    }
  }

  // ---------- panics ----------

  /** A change panics exactly when it edits the children of a live entry that has no child map. */
  lemma PanicsExactly(t: Tree, c: Change)
    ensures Apply(t, c).Panicked? <==>
            EditsKeys(c) && exists e :: GetEntry(t, c.bucket, EditParent(EditedKey(c))) == Some(e) && e.keys.None?
  {
    if EditsKeys(c) && GetEntry(t, c.bucket, EditParent(EditedKey(c))).Some? {
      var e := GetEntry(t, c.bucket, EditParent(EditedKey(c))).value;
      assert GetEntry(t, c.bucket, EditParent(EditedKey(c))) == Some(e);
    }
  }

  // ---------- moving there and back ----------

  lemma {:induction false} PutLaws(e: KeyEntry, path: seq<string>, x: KeyEntry, y: KeyEntry)
    requires Find(e, path).Some?
    ensures Find(Put(e, path, x), path) == Some(x)
    ensures Put(Put(e, path, x), path, y) == Put(e, path, y)
    ensures Put(e, path, Find(e, path).value) == e
    decreases path
  {
    if path != [] {
      var c := Child(e, path[0]).value;
      PutLaws(c, path[1..], x, y);
      var keys := e.keys.value;
      assert keys[path[0] := Put(c, path[1..], x)][path[0] := Put(c, path[1..], y)] == keys[path[0] := Put(c, path[1..], y)];
      assert keys[path[0] := c] == keys;
    }
  }

  /** The key of the renamed directory. */
  function RenamedKey(from: string, to: string): string {
    match RSplitOnce(from)
    case None => to
    case Some((head, _)) => head + "/" + to
  }

  lemma RenamedKeyParts(from: string, to: string)
    requires IsSegment(to)
    ensures EditParent(RenamedKey(from, to)) == EditParent(from) && EditName(RenamedKey(from, to)) == to
  {
    if RSplitOnce(from).Some? {
      RSplitOnceAt(RSplitOnce(from).value.0, to);
    }
  }

  /** Renaming there and back edits the children of one entry twice. */
  lemma NameKeyTwice(t: Tree, bucket: string, from: string, to: string)
    requires IsSegment(to)
    requires Apply(t, NameKey(bucket, from, to)).Changed? && View(t, bucket, EditParent(from)).Some?
    ensures var parent, e := EditParent(from), GetEntry(t, bucket, EditParent(from)).value;
            e.keys.Some? &&
            Apply(Apply(t, NameKey(bucket, from, to)).tree, NameKey(bucket, RenamedKey(from, to), EditName(from))) ==
            Changed(PutEntry(t, bucket, parent, MoveKey(MoveKey(e, EditName(from), to), to, EditName(from))))
  {
    var parent, name := EditParent(from), EditName(from);
    RenamedKeyParts(from, to);
    var e := GetEntry(t, bucket, parent).value;
    var x := MoveKey(e, name, to);
    var y := MoveKey(x, to, name);
    PutLaws(t[bucket], parent, x, y);
    var moved := PutEntry(t, bucket, parent, x);
    assert GetEntry(moved, bucket, parent) == Some(x);
    assert moved[bucket := Put(t[bucket], parent, y)] == t[bucket := Put(t[bucket], parent, y)];
  }

  /** Renaming a directory and renaming it back restores the tree exactly when the directory was there
      in the first place. */
  lemma NameKeyBack(t: Tree, bucket: string, from: string, to: string)
    requires IsSegment(to)
    requires Apply(t, NameKey(bucket, from, to)).Changed? && View(t, bucket, EditParent(from)).Some?
    ensures var moved := Apply(t, NameKey(bucket, from, to)).tree;
            Apply(moved, NameKey(bucket, RenamedKey(from, to), EditName(from))) == Changed(t)
            <==> View(t, bucket, EditPath(from)).Some?
  {
    var parent, name := EditParent(from), EditName(from);
    NameKeyTwice(t, bucket, from, to);
    var e := GetEntry(t, bucket, parent).value;
    Below(t, bucket, parent, e, [name]);
    ChildView(e, name, []);
    RestoredBy(t, bucket, parent, MoveKey(MoveKey(e, name, to), to, name));
    if name in e.keys.value {
      MoveBack(e, name, to);
    }
  }

  /** A write restores the tree exactly when it writes what was there. */
  lemma RestoredBy(t: Tree, bucket: string, path: seq<string>, y: KeyEntry)
    requires GetEntry(t, bucket, path).Some?
    ensures PutEntry(t, bucket, path, y) == t <==> GetEntry(t, bucket, path) == Some(y)
  {
    PutLaws(t[bucket], path, y, y);
    assert t[bucket := t[bucket]] == t;
    assert GetEntry(PutEntry(t, bucket, path, y), bucket, path) == Some(y);
  }

  lemma MoveBack(e: KeyEntry, from: string, to: string)
    requires e.keys.Some? && from in e.keys.value
    ensures MoveKey(MoveKey(e, from, to), to, from) == e
  {
    var keys := e.keys.value;
    if to !in keys {
      assert ((keys - {from})[to := keys[from]] - {to})[from := keys[from]] == keys;
    }
  }

  /** Renaming a bucket and renaming it back restores the tree exactly when no other bucket had the new name. */
  lemma NameBucketBack(t: Tree, from: string, to: string)
    ensures Apply(Apply(t, NameBucket(from, to)).tree, NameBucket(to, from)) == Changed(t) <==> from == to || to !in t
  {
    var back := Apply(Apply(t, NameBucket(from, to)).tree, NameBucket(to, from)).tree;
    if from == to || to !in t {
      if from in t {
        assert ((t - {from})[to := t[from]] - {to})[from := t[from]] == t;
      }
    } else {
      assert to !in back;
    }
  }

  /** Moving a directory keeps every object at its place relative to the directory. */
  lemma NameKeyMoves(t: Tree, bucket: string, from: string, to: string, q: seq<string>)
    requires Apply(t, NameKey(bucket, from, to)).Changed?
    requires View(t, bucket, EditPath(from)).Some? && View(t, bucket, EditParent(from) + [to]).None?
    ensures var moved := Apply(t, NameKey(bucket, from, to)).tree;
            && View(moved, bucket, EditParent(from) + [to] + q) == View(t, bucket, EditPath(from) + q)
            && View(moved, bucket, EditPath(from) + q) == None
  {
    var c, parent := NameKey(bucket, from, to), EditParent(from);
    ParentsLive(t, bucket, parent, [EditName(from)]);
    var target, source := parent + [to], EditPath(from);
    Refines(t, c, bucket, target + q);
    Refines(t, c, bucket, source + q);
    assert (target + q)[|target|..] == q;
    assert source != target && |source| == |target|;
    assert !(target <= source + q) by {
      assert (source + q)[..|source|] == source;
    }
  }

  // ---------- the tree in place ----------

  class BucketMap {
    var tree: Tree

    constructor ()
      ensures tree == map[]
    {
      tree := map[];
    }

    /** Follows a key segment by segment. */
    method GetMutEntry(bucket: string, path: seq<string>) returns (r: Option<KeyEntry>)
      ensures r == GetEntry(tree, bucket, path)
    {
      if bucket !in tree {
        return None;
      }
      var entry := tree[bucket];
      for i := 0 to |path|
        invariant Find(tree[bucket], path) == Find(entry, path[i..])
      {
        var child := Child(entry, path[i]);
        assert path[i..][1..] == path[i + 1..];
        if child.None? {
          return None;
        }
        entry := child.value;
      }
      r := Some(entry);
    }

    /** The position of the first object of that name. */
    method Position(objs: seq<Object>, name: string) returns (r: Option<nat>)
      ensures r == FirstNamed(objs, name)
    {
      for i := 0 to |objs|
        invariant FirstNamed(objs, name) ==
                  match FirstNamed(objs[i..], name) case None => None case Some(j) => Some(i + j)
      {
        assert objs[i..][1..] == objs[i + 1..];
        if objs[i].fileName == name {
          return Some(i);
        }
      }
      r := None;
    }

    /** Applies one change; a panic leaves the tree as it was. */
    method Change(c: Change) returns (panicked: bool)
      modifies this
      ensures panicked <==> Apply(old(tree), c).Panicked?
      ensures tree == if panicked then old(tree) else Apply(old(tree), c).tree
    {
      panicked := false;
      match c {
        case NewObject(bucket, key, obj) =>
          var found := GetMutEntry(bucket, Walk(key));
          if found.None? {
            return;
          }
          var entry := found.value;
          var objs := if entry.objects.Some? then entry.objects.value else [];
          tree := PutEntry(tree, bucket, Walk(key), entry.(objects := Some(objs + [obj])));

        case NewKey(bucket, key) =>
          var parent, name := EditParent(key), EditName(key);
          var found := GetMutEntry(bucket, parent);
          if found.None? {
            return;
          }
          var entry := found.value;
          if entry.keys.None? {
            return true;
          }
          if name !in entry.keys.value {
            entry := WithChild(entry, name, EMPTY);
          }
          tree := PutEntry(tree, bucket, parent, entry);

        case NewBucket(bucket) =>
          if bucket !in tree {
            tree := tree[bucket := EMPTY];
          }

        case NameObject(bucket, key, from, to) =>
          var found := GetMutEntry(bucket, Walk(key));
          if found.None? {
            return;
          }
          var entry := found.value;
          if entry.objects.Some? {
            var objs := entry.objects.value;
            var i := Position(objs, from);
            if i.Some? {
              objs := objs[i.value := objs[i.value].(fileName := to)];
            }
            entry := entry.(objects := Some(objs));
          }
          tree := PutEntry(tree, bucket, Walk(key), entry);

        case NameBucket(from, to) =>
          if from in tree {
            var entry := tree[from];
            tree := tree - {from};
            tree := tree[to := entry];
          }

        case NameKey(bucket, from, to) =>
          var parent, name := EditParent(from), EditName(from);
          var found := GetMutEntry(bucket, parent);
          if found.None? {
            return;
          }
          var entry := found.value;
          if entry.keys.None? {
            return true;
          }
          if to in entry.keys.value {
            PutLaws(tree[bucket], parent, entry, entry);
            assert tree[bucket := tree[bucket]] == tree;
            return;
          }
          var moved := if name in entry.keys.value then entry.keys.value[name] else EMPTY;
          entry := WithChild(WithoutChild(entry, name), to, moved);
          tree := PutEntry(tree, bucket, parent, entry);

        case DeleteObject(bucket, key, name) =>
          var found := GetMutEntry(bucket, Walk(key));
          if found.None? {
            return;
          }
          var entry := found.value;
          if entry.objects.Some? {
            var objs := entry.objects.value;
            var i := Position(objs, name);
            if i.Some? {
              objs := SwapRemove(objs, i.value);
            }
            entry := entry.(objects := Some(objs));
          }
          tree := PutEntry(tree, bucket, Walk(key), entry);

        case DeleteKey(bucket, key) =>
          var parent, name := EditParent(key), EditName(key);
          var found := GetMutEntry(bucket, parent);
          if found.None? {
            return;
          }
          var entry := found.value;
          if entry.keys.None? {
            return true;
          }
          tree := PutEntry(tree, bucket, parent, WithoutChild(entry, name));

        case DeleteBucket(bucket) =>
          tree := tree - {bucket};
      }
    }
  }
}
