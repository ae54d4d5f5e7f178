/** Keys: a path below a bucket written as one string, its segments separated by '/'. */
module Keys {
  import opened Wrappers

  const ROOT: string := "."

  predicate IsSegment(s: string) {
    '/' !in s
  }

  predicate AreSegments(segs: seq<string>) {
    forall i :: 0 <= i < |segs| ==> IsSegment(segs[i])
  }

  /** Splits at the last '/'. */
  function RSplitOnce(s: string): (r: Option<(string, string)>)
    ensures r.None? <==> IsSegment(s)
    ensures r.Some? ==> s == r.value.0 + "/" + r.value.1 && IsSegment(r.value.1)
    ensures r.Some? ==> |r.value.0| < |s|
  {
    if s == "" then None
    else
      var front, last := s[..|s| - 1], s[|s| - 1];
      assert s == front + [last];
      if last == '/' then Some((front, ""))
      else match RSplitOnce(front)
        case None => None
        case Some((head, tail)) => Some((head, tail + [last]))
  }

  /** The segments of a key: everything between two separators, empty segments included. */
  function Split(s: string): (segs: seq<string>)
    ensures segs != [] && AreSegments(segs)
    decreases |s|
  {
    match RSplitOnce(s)
    case None => [s]
    case Some((head, tail)) => Split(head) + [tail]
  }

  function Join(segs: seq<string>): string
    requires segs != []
  {
    if |segs| == 1 then segs[0] else Join(segs[..|segs| - 1]) + "/" + segs[|segs| - 1]
  }

  lemma {:induction false} JoinSplit(s: string)
    ensures Join(Split(s)) == s
    decreases |s|
  {
    match RSplitOnce(s)
    case None =>
    case Some((head, tail)) =>
      JoinSplit(head);
      assert Split(s)[..|Split(s)| - 1] == Split(head);
  }

  lemma {:induction false} SplitJoin(segs: seq<string>)
    requires segs != [] && AreSegments(segs)
    ensures Split(Join(segs)) == segs
  {
    if |segs| > 1 {
      var front, last := segs[..|segs| - 1], segs[|segs| - 1];
      SplitJoin(front);
      RSplitOnceAt(Join(front), last);
      assert segs == front + [last];
    }
  }

  lemma {:induction false} RSplitOnceAt(head: string, tail: string)
    requires IsSegment(tail)
    ensures RSplitOnce(head + "/" + tail) == Some((head, tail))
  {
    var s := head + "/" + tail;
    if tail == "" {
      assert s[..|s| - 1] == head;
    } else {
      RSplitOnceAt(head, tail[..|tail| - 1]);
      assert s[..|s| - 1] == head + "/" + tail[..|tail| - 1];
      assert s[|s| - 1] == tail[|tail| - 1];
      assert tail[..|tail| - 1] + [tail[|tail| - 1]] == tail;
    }
  }

  /** The segments a lookup follows: none for the root key. */
  function Walk(key: string): (segs: seq<string>)
    ensures AreSegments(segs)
  {
    if key == ROOT then [] else Split(key)
  }

  /** The key that names a path. */
  function KeyOf(segs: seq<string>): string {
    if segs == [] then ROOT else Join(segs)
  }

  /** A path some key leads to. */
  predicate HasKey(segs: seq<string>) {
    AreSegments(segs) && segs != [ROOT]
  }

  lemma KeyOfWalk(key: string)
    ensures KeyOf(Walk(key)) == key && HasKey(Walk(key))
  {
    JoinSplit(key);
  }

  lemma WalkKeyOf(segs: seq<string>)
    requires HasKey(segs)
    ensures Walk(KeyOf(segs)) == segs
  {
    if segs != [] {
      SplitJoin(segs);
      assert Split(ROOT) == [ROOT];
    }
  }

  /** The entry an edit of a key works in: everything before the last separator. */
  function EditParent(key: string): (segs: seq<string>)
    ensures AreSegments(segs)
  {
    match RSplitOnce(key)
    case None => []
    case Some((head, _)) => Walk(head)
  }

  /** The segment an edit of a key works on. */
  function EditName(key: string): (name: string)
    ensures IsSegment(name)
  {
    match RSplitOnce(key)
    case None => key
    case Some((_, tail)) => tail
  }

  function EditPath(key: string): seq<string> {
    EditParent(key) + [EditName(key)]
  }

  /** Edits and lookups of a key agree, unless the key is the root or starts with the root's own name. */
  lemma EditIsWalk(key: string)
    ensures EditPath(key) == Walk(key) <==> key != ROOT && !(RSplitOnce(key).Some? && RSplitOnce(key).value.0 == ROOT)
  {
    assert Split(ROOT) == [ROOT];
  }
}
