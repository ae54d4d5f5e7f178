/** Paths under the watched root: finding their bucket and their key. */
module Paths {
  import opened Wrappers
  import opened Keys
  import opened BucketMap

  /** An absolute path, component by component. */
  type Path = seq<string>

  predicate IsComponent(s: string) {
    s != "" && IsSegment(s) && s != "." && s != ".."
  }

  predicate IsPath(p: Path) {
    forall i :: 0 <= i < |p| ==> IsComponent(p[i])
  }

  function Parent(p: Path): Option<Path> {
    if p == [] then None else Some(p[..|p| - 1])
  }

  /** Climbs from the path to the child of the root: its name is the bucket. */
  method FindBucket(root: Path, path: Path) returns (r: Option<string>)
    ensures r == BucketOf(root, path)
  {
    var child := path;
    while child != []
      invariant child <= path
      invariant root < path ==> |root| < |child|
    {
      var parent := child[..|child| - 1];
      assert parent == path[..|child| - 1];
      if parent == root {
        return Some(child[|child| - 1]);
      }
      child := parent;
    }
    r := None;
  }

  /** The first component below the root, for paths strictly below it. */
  function BucketOf(root: Path, path: Path): Option<string> {
    if root < path then Some(path[|root|]) else None
  }

  // ---------- text ----------

  function Text(p: Path): string {
    if p == [] then "" else Text(p[..|p| - 1]) + "/" + p[|p| - 1]
  }

  function Render(p: Path): string {
    if p == [] then "/" else Text(p)
  }

  predicate OccursAt(s: string, pat: string, i: nat) {
    i + |pat| <= |s| && s[i..i + |pat|] == pat
  }

  ghost predicate Contains(s: string, pat: string) {
    exists i: nat :: OccursAt(s, pat, i)
  }

  /** Where a pattern occurs first. */
  function FirstAt(s: string, pat: string): (r: Option<nat>)
    ensures r.Some? ==> r.value + |pat| <= |s|
  {
    FirstFrom(s, pat, 0)
  }

  function FirstFrom(s: string, pat: string, from: nat): (r: Option<nat>)
    ensures r.Some? ==> r.value + |pat| <= |s|
    decreases |s| - from
  {
    if from + |pat| > |s| then None
    else if OccursAt(s, pat, from) then Some(from)
    else FirstFrom(s, pat, from + 1)
  }

  lemma {:induction false} FirstFromExact(s: string, pat: string, from: nat)
    ensures var r := FirstFrom(s, pat, from);
            && (r.Some? ==> from <= r.value && OccursAt(s, pat, r.value) && forall i: nat :: from <= i < r.value ==> !OccursAt(s, pat, i))
            && (r.None? ==> forall i: nat :: from <= i ==> !OccursAt(s, pat, i))
    decreases |s| - from
  {
    if from + |pat| <= |s| && !OccursAt(s, pat, from) {
      FirstFromExact(s, pat, from + 1);
    }
  }

  lemma FirstAtExact(s: string, pat: string)
    ensures var r := FirstAt(s, pat);
            && (r.Some? ==> OccursAt(s, pat, r.value) && forall i: nat :: i < r.value ==> !OccursAt(s, pat, i))
            && (r.None? ==> forall i: nat :: !OccursAt(s, pat, i))
  {
    FirstFromExact(s, pat, 0);
  }

  /** What follows a position: a leading separator is dropped, and nothing at all is the root key. */
  function KeyFrom(text: string, at: nat): string
    requires at <= |text|
  {
    var rest := text[at..];
    var key := if rest != "" && rest[0] == '/' then rest[1..] else rest;
    if key == "" then ROOT else key
  }

  /** The key of a path: what follows the first occurrence of the bucket's name in the path's text. */
  function FromBucket(bucket: string, path: Path): Option<string> {
    var text := Render(path);
    match FirstAt(text, bucket)
    case None => None
    case Some(i) => Some(KeyFrom(text, i + |bucket|))
  }

  lemma {:induction false} TextAppend(a: Path, b: Path)
    ensures Text(a + b) == Text(a) + Text(b)
  {
    if b == [] {
      assert a + b == a;
    } else {
      var front, last := b[..|b| - 1], b[|b| - 1];
      assert (a + b)[..|a + b| - 1] == a + front;
      TextAppend(a, front);
      assert (Text(a) + Text(front)) + ("/" + last) == Text(a) + (Text(front) + ("/" + last));
    }
  }

  lemma {:induction false} TextJoin(p: Path)
    requires p != []
    ensures Text(p) == "/" + Join(p)
  {
    if |p| > 1 {
      TextJoin(p[..|p| - 1]);
    }
  }

  /** An occurrence of a name without '/' covers no '/'. */
  lemma CoversNoSlash(text: string, name: string, i: nat)
    requires OccursAt(text, name, i) && IsSegment(name)
    ensures forall at :: i <= at < i + |name| ==> text[at] != '/'
  {
    forall at | i <= at < i + |name|
      ensures text[at] != '/'
    {
      assert text[at] == text[i..i + |name|][at - i] == name[at - i];
    }
  }

  /** A name without '/' occurs in a path's text only inside one of its components. */
  lemma {:induction false} OccursInside(p: Path, name: string, i: nat) returns (k: nat)
    requires IsSegment(name) && name != "" && OccursAt(Text(p), name, i)
    ensures k < |p| && Contains(p[k], name)
  {
    var text := Text(p);
    var front, last := Text(p[..|p| - 1]), p[|p| - 1];
    assert text == front + "/" + last;
    if i + |name| <= |front| {
      assert front[i..i + |name|] == text[i..i + |name|];
      k := OccursInside(p[..|p| - 1], name, i);
    } else {
      CoversNoSlash(text, name, i);
      assert text[|front|] == '/';
      k := |p| - 1;
      var j := i - |front| - 1;
      assert last[j..j + |name|] == text[i..i + |name|];
      assert OccursAt(last, name, j);
    }
  }

  lemma OccursInText(p: Path, k: nat, name: string) returns (i: nat)
    requires k < |p| && Contains(p[k], name)
    ensures OccursAt(Text(p), name, i)
  {
    var j: nat :| OccursAt(p[k], name, j);
    assert p == p[..k] + [p[k]] + p[k + 1..];
    TextAppend(p[..k] + [p[k]], p[k + 1..]);
    TextAppend(p[..k], [p[k]]);
    assert Text([p[k]]) == "/" + p[k] by {
      assert [p[k]][..0] == [];
    }
    i := |Text(p[..k])| + 1 + j;
    assert Text(p)[i..i + |name|] == p[k][j..j + |name|];
  }

  ghost predicate NameInRoot(root: Path, name: string) {
    exists k :: 0 <= k < |root| && Contains(root[k], name)
  }

  lemma PathText(root: Path, bucket: string, segs: Path)
    ensures Render(root + [bucket] + segs) == Text(root) + "/" + bucket + Text(segs)
  {
    TextAppend(root + [bucket], segs);
    TextAppend(root, [bucket]);
    assert Text([bucket]) == "/" + bucket by {
      assert [bucket][..0] == [];
    }
  }

  /** The key of a path is the rest of the path below its bucket exactly when the bucket's name is not
      part of any component of the root. */
  lemma FromBucketExact(root: Path, bucket: string, segs: Path)
    requires IsPath(root + [bucket] + segs)
    ensures FromBucket(bucket, root + [bucket] + segs) == Some(KeyOf(segs)) <==> !NameInRoot(root, bucket)
    ensures FromBucket(bucket, root + [bucket] + segs).Some?
  {
    KeyInPath(root, bucket, segs, root + [bucket] + segs);
  }

  lemma KeyInPath(root: Path, bucket: string, segs: Path, path: Path)
    requires path == root + [bucket] + segs && IsPath(path)
    ensures FirstAt(Render(path), bucket).Some?
    ensures KeyFrom(Render(path), FirstAt(Render(path), bucket).value + |bucket|) == KeyOf(segs) <==> !NameInRoot(root, bucket)
  {
    FirstInPath(root, bucket, segs, path);
    var first := FirstAt(Render(path), bucket).value;
    if NameInRoot(root, bucket) {
      EarlyKey(root, bucket, segs, path, first);
    } else {
      OwnKey(root, bucket, segs, path, first);
    }
  }

  lemma FirstInPath(root: Path, bucket: string, segs: Path, path: Path)
    requires path == root + [bucket] + segs && IsPath(path)
    ensures FirstAt(Render(path), bucket).Some?
    ensures var first := FirstAt(Render(path), bucket).value;
            if NameInRoot(root, bucket) then first + |bucket| <= |Text(root)| else first == |Text(root)| + 1
  {
    BucketInText(root, bucket, segs);
    PathParts(root, bucket, segs);
    FirstInRoot(root, bucket, Render(path));
  }

  /** Behind the bucket's own place lies its key. */
  lemma OwnKey(root: Path, bucket: string, segs: Path, path: Path, at: nat)
    requires path == root + [bucket] + segs && IsPath(path) && at == |Text(root)| + 1
    ensures at + |bucket| <= |Render(path)| && KeyFrom(Render(path), at + |bucket|) == KeyOf(segs)
  {
    BucketInText(root, bucket, segs);
    PathParts(root, bucket, segs);
    KeyFromText(Render(path), at + |bucket|, segs);
  }

  /** Behind an earlier place lies another one. */
  lemma EarlyKey(root: Path, bucket: string, segs: Path, path: Path, first: nat)
    requires path == root + [bucket] + segs && IsPath(path) && first + |bucket| <= |Text(root)|
    ensures first + |bucket| <= |Render(path)| && KeyFrom(Render(path), first + |bucket|) != KeyOf(segs)
  {
    BucketInText(root, bucket, segs);
    PathParts(root, bucket, segs);
    KeyTooLong(Render(path), first, |Text(root)| + 1, bucket);
    OwnKey(root, bucket, segs, path, |Text(root)| + 1);
  }

  lemma PathParts(root: Path, bucket: string, segs: Path)
    requires IsPath(root + [bucket] + segs)
    ensures IsSegment(bucket) && bucket != "" && bucket != "."
    ensures segs != [] ==> Join(segs) != ""
  {
    var path := root + [bucket] + segs;
    assert path[|root|] == bucket;
    if segs != [] {
      assert path[|path| - 1] == segs[|segs| - 1];
    }
  }

  /** The text of a path goes on with the bucket after the root's text. */
  ghost predicate HoldsBucket(text: string, root: Path, bucket: string) {
    Text(root) + "/" <= text && OccursAt(text, bucket, |Text(root)| + 1)
  }

  lemma BucketInText(root: Path, bucket: string, segs: Path)
    ensures var text := Render(root + [bucket] + segs);
            && HoldsBucket(text, root, bucket) && text[|Text(root)|] == '/'
            && text[|Text(root)| + 1 + |bucket|..] == Text(segs)
  {
    var text, start := Render(root + [bucket] + segs), |Text(root)| + 1;
    PathText(root, bucket, segs);
    assert text == Text(root) + "/" + bucket + Text(segs);
    assert text[start..start + |bucket|] == bucket;
    assert text[start + |bucket|..] == Text(segs);
  }

  lemma KeyFromText(text: string, at: nat, segs: Path)
    requires at <= |text| && text[at..] == Text(segs) && (segs != [] ==> Join(segs) != "")
    ensures KeyFrom(text, at) == KeyOf(segs)
  {
    if segs != [] {
      TextJoin(segs);
    }
  }

  /** The name is first found before its own component exactly when a component of the root holds it. */
  lemma FirstInRoot(root: Path, bucket: string, text: string)
    requires IsSegment(bucket) && bucket != ""
    requires Text(root) + "/" <= text && OccursAt(text, bucket, |Text(root)| + 1)
    ensures FirstAt(text, bucket).Some?
    ensures var first := FirstAt(text, bucket).value;
            if NameInRoot(root, bucket) then first + |bucket| <= |Text(root)| else first == |Text(root)| + 1
  {
    FirstAtExact(text, bucket);
    var before := Text(root);
    var first := FirstAt(text, bucket).value;
    if NameInRoot(root, bucket) {
      var k :| 0 <= k < |root| && Contains(root[k], bucket);
      var i := OccursInText(root, k, bucket);
      assert text[i..i + |bucket|] == before[i..i + |bucket|];
      assert OccursAt(text, bucket, i);
    }
    CoversNoSlash(text, bucket, first);
    assert text[|before|] == '/';
    if first <= |before| {
      assert before[first..first + |bucket|] == text[first..first + |bucket|];
      var k := OccursInside(root, bucket, first);
    }
  }

  /** Cut at an earlier occurrence, the key still holds the bucket's name and everything behind it. */
  lemma KeyTooLong(text: string, first: nat, start: nat, bucket: string)
    requires first + |bucket| < start && start + |bucket| <= |text| && OccursAt(text, bucket, start)
    requires bucket != "" && bucket != "." && text[start - 1] == '/'
    ensures KeyFrom(text, first + |bucket|) != KeyFrom(text, start + |bucket|)
  {
    if |text| == start + |bucket| {
      NothingBehind(text, first + |bucket|, bucket);
    } else {
      assert |KeyFrom(text, first + |bucket|)| >= |text| - first - |bucket| - 1 > |text| - start - |bucket|;
    }
  }

  /** A text that ends with a name of its own has a key that ends with it. */
  lemma NothingBehind(text: string, at: nat, bucket: string)
    requires at + |bucket| < |text| && text[|text| - |bucket|..] == bucket && bucket != "" && bucket != "."
    ensures KeyFrom(text, at) != ROOT
  {
    var key := KeyFrom(text, at);
    assert |key| >= |bucket|;
    if |bucket| == 1 {
      assert key[|key| - 1] == text[|text| - 1] == bucket[0];
    }
  }

  /** Bucket and key rebuild the path, unless the root mentions the bucket. */
  lemma Decomposes(root: Path, path: Path)
    requires IsPath(path) && root < path && !NameInRoot(root, path[|root|])
    ensures var bucket := BucketOf(root, path).value;
            && FromBucket(bucket, path).Some?
            && root + [bucket] + Walk(FromBucket(bucket, path).value) == path
            && Walk(FromBucket(bucket, path).value) == path[|root| + 1..]
  {
    var bucket, segs := path[|root|], path[|root| + 1..];
    assert path == root + [bucket] + segs;
    FromBucketExact(root, bucket, segs);
    ComponentsHaveKey(segs);
    WalkKeyOf(segs);
  }

  lemma ComponentsHaveKey(segs: Path)
    requires IsPath(segs)
    ensures HasKey(segs)
  {
    assert |segs| == 1 ==> IsComponent(segs[0]);
  }

  // ---------- asking what a path is ----------

  datatype Reply = IsDir | IsFile | NoAnswer

  /** The manager's answer; a path that is not below the root has no bucket, and unwrapping it panics. */
  function WhatIs(t: Tree, root: Path, path: Path): Reply {
    if Parent(path) == Some(root) then IsDir
    else
      match BucketOf(root, path)
      case None => NoAnswer
      case Some(bucket) =>
        match FromBucket(bucket, path)
        case None => NoAnswer
        case Some(key) => if GetEntry(t, bucket, Walk(key)).Some? then IsDir else IsFile
  }

  /** Below bucket level the answer is IsDir exactly for the directories of the tree. */
  lemma WhatIsExact(t: Tree, root: Path, path: Path)
    requires IsPath(path)
    ensures WhatIs(t, root, path) == NoAnswer <==> !(root < path)
    ensures root < path && |path| == |root| + 1 ==> WhatIs(t, root, path) == IsDir
    ensures root < path && |path| > |root| + 1 && !NameInRoot(root, path[|root|]) ==>
              (WhatIs(t, root, path) == IsDir <==> View(t, path[|root|], path[|root| + 1..]).Some?)
  {
    if Parent(path) == Some(root) {
      assert path[..|root|] == root;
    }
    if root < path {
      if |path| == |root| + 1 {
        assert path[..|path| - 1] == root;
      } else {
        WhatIsBelow(t, root, path);
      }
    }
  }

  lemma WhatIsBelow(t: Tree, root: Path, path: Path)
    requires IsPath(path) && root < path && |path| > |root| + 1
    ensures WhatIs(t, root, path) != NoAnswer
    ensures !NameInRoot(root, path[|root|]) ==>
              (WhatIs(t, root, path) == IsDir <==> View(t, path[|root|], path[|root| + 1..]).Some?)
  {
    var bucket, segs := path[|root|], path[|root| + 1..];
    assert path == root + [bucket] + segs;
    FromBucketExact(root, bucket, segs);
    if !NameInRoot(root, bucket) {
      Decomposes(root, path);
    }
  }
}
