/** The document store: one document per file, kept apart by a unique index. */
module LocalStorage {
  import opened Wrappers
  import opened BucketMap

  /** The unique index: bucket, key and file name of a document. */
  datatype Place = Place(bucket: string, key: string, fileName: string)

  /** What a document holds besides its place; `name` is the field that renames write. */
  datatype Document = Document(id: nat, rest: nat, name: Option<string>)

  type Docs = map<Place, Document>

  // ---------- updates of many documents ----------

  /** An update that gives documents a new place. */
  datatype Update = SetBucket(from: string, to: string) | SetKey(bucket: string, from: string, to: string) | NoUpdate

  predicate Matches(u: Update, p: Place) {
    match u
    case SetBucket(from, _) => p.bucket == from
    case SetKey(bucket, from, _) => p.bucket == bucket && p.key == from
    case NoUpdate => false
  }

  function NewPlace(u: Update, p: Place): Place {
    match u
    case SetBucket(_, to) => p.(bucket := to)
    case SetKey(_, _, to) => p.(key := to)
    case NoUpdate => p
  }

  function Matching(docs: Docs, u: Update): set<Place> {
    set p | p in docs && Matches(u, p)
  }

  /** Matching documents, each once. */
  ghost predicate Visiting(docs: Docs, u: Update, order: seq<Place>) {
    && (forall p :: p in order ==> p in docs && Matches(u, p))
    && (forall i, j :: 0 <= i < j < |order| ==> order[i] != order[j])
  }

  /** An order in which the database may visit all matching documents. */
  ghost predicate Visits(docs: Docs, u: Update, order: seq<Place>) {
    Visiting(docs, u, order) && forall p :: p in Matching(docs, u) ==> p in order
  }

  /** The rest of the visit after one document kept its place or moved to a free one. */
  lemma VisitRest(docs: Docs, u: Update, order: seq<Place>)
    requires order != [] && Visiting(docs, u, order)
    ensures order[0] !in order[1..] && Visiting(docs, u, order[1..])
    ensures Visiting((docs - {order[0]})[NewPlace(u, order[0]) := docs[order[0]]], u, order[1..])
  {
    assert order == [order[0]] + order[1..];
    forall p | p in order[1..]
      ensures p in order && p != order[0]
    {
      var i :| 0 <= i < |order| - 1 && order[1..][i] == p;
      assert order[i + 1] == p;
    }
  }

  /** Visits the documents one by one and stops at the first whose new place is taken. */
  function UpdateMany(docs: Docs, u: Update, order: seq<Place>): Result<Docs, Docs>
    requires Visiting(docs, u, order)
    decreases order
  {
    if order == [] then Ok(docs)
    else
      VisitRest(docs, u, order);
      var p, q := order[0], NewPlace(u, order[0]);
      if q == p then UpdateMany(docs, u, order[1..])
      else if q in docs then Err(docs)
      else UpdateMany((docs - {p})[q := docs[p]], u, order[1..])
  }

  function After(r: Result<Docs, Docs>): Docs {
    match r case Ok(docs) => docs case Err(docs) => docs
  }

  /** Without a taken place every matching document moves and no other does. */
  lemma {:induction false} UpdatedAll(docs: Docs, u: Update, order: seq<Place>, q: Place)
    requires Visiting(docs, u, order)
    requires forall p :: p in order ==> NewPlace(u, p) == p || NewPlace(u, p) !in docs
    ensures UpdateMany(docs, u, order).Ok?
    ensures q in After(UpdateMany(docs, u, order)) <==>
            (q in docs && q !in order) || exists p :: p in order && q == NewPlace(u, p)
    decreases order
  {
    if order != [] {
      var p, rest := order[0], order[1..];
      assert order == [p] + rest;
      VisitRest(docs, u, order);
      UpdatedAll(if NewPlace(u, p) == p then docs else (docs - {p})[NewPlace(u, p) := docs[p]], u, rest, q);
    }
  }

  /** Documents that do not match stay, and only new places of matching documents are added. */
  lemma {:induction false} UpdatedBounds(docs: Docs, u: Update, order: seq<Place>, q: Place)
    requires Visiting(docs, u, order)
    ensures q in docs && q !in order ==> q in After(UpdateMany(docs, u, order))
    ensures q in After(UpdateMany(docs, u, order)) && q !in docs ==> exists p :: p in order && q == NewPlace(u, p)
    decreases order
  {
    if order != [] {
      var p, rest := order[0], order[1..];
      assert order == [p] + rest;
      VisitRest(docs, u, order);
      if NewPlace(u, p) == p {
        UpdatedBounds(docs, u, rest, q);
      } else if NewPlace(u, p) !in docs {
        UpdatedBounds((docs - {p})[NewPlace(u, p) := docs[p]], u, rest, q);
      }
    }
  }

  /** If some new place was taken beforehand, some document keeps its old place. */
  lemma {:induction false} UpdateStops(docs: Docs, u: Update, order: seq<Place>, taken: Place) returns (left: Place)
    requires Visiting(docs, u, order)
    requires taken in order && NewPlace(u, taken) != taken && NewPlace(u, taken) in docs
    requires forall p :: p in order ==> NewPlace(u, p) !in order
    ensures left in order && left in After(UpdateMany(docs, u, order))
    decreases order
  {
    var p, rest := order[0], order[1..];
    assert order == [p] + rest;
    VisitRest(docs, u, order);
    left := p;
    if NewPlace(u, p) !in docs {
      var next := (docs - {p})[NewPlace(u, p) := docs[p]];
      assert taken in rest;
      assert NewPlace(u, taken) in next by {
        assert NewPlace(u, taken) != p;
      }
      left := UpdateStops(next, u, rest, taken);
    }
  }

  /** The documents of `moved` are each at their own new place, with all they held; every other document is
      where it was, with all it held. */
  ghost predicate Moved(docs: Docs, u: Update, moved: set<Place>, after: Docs) {
    && (forall p :: p in moved ==> p in docs && NewPlace(u, p) in after && after[NewPlace(u, p)] == docs[p])
    && (forall q :: q in docs && q !in moved ==> q in after && after[q] == docs[q])
    && (forall q :: q in after ==> (q in docs && q !in moved) || exists p :: p in moved && q == NewPlace(u, p))
  }

  ghost function Places(order: seq<Place>): set<Place> {
    set p | p in order
  }

  /** What a visit comes to: a first part of the documents has moved; either that is all of them, or the next
      one's place is taken. */
  ghost predicate MovedFirst(docs: Docs, u: Update, order: seq<Place>, n: nat, after: Docs)
    requires n <= |order|
  {
    && Moved(docs, u, Places(order[..n]), after)
    && (n < |order| ==> NewPlace(u, order[n]) != order[n] && NewPlace(u, order[n]) in after)
  }

  /** Where a document of a match goes never lies on the way of another one. */
  lemma NewPlacesApart(u: Update, p: Place, q: Place)
    requires Matches(u, p) && Matches(u, q)
    ensures NewPlace(u, p) == q ==> NewPlace(u, p) == p && p == q
    ensures NewPlace(u, p) == NewPlace(u, q) ==> p == q
  {
  }

  lemma {:induction false} UpdatedContents(docs: Docs, u: Update, order: seq<Place>) returns (n: nat)
    requires Visiting(docs, u, order)
    ensures n <= |order| && MovedFirst(docs, u, order, n, After(UpdateMany(docs, u, order)))
    ensures UpdateMany(docs, u, order).Ok? <==> n == |order|
    decreases order
  {
    n := 0;
    if order != [] {
      var p, rest := order[0], order[1..];
      var q := NewPlace(u, p);
      assert order == [p] + rest && p in order;
      VisitRest(docs, u, order);
      if q == p || q !in docs {
        var next := if q == p then docs else (docs - {p})[q := docs[p]];
        var k := UpdatedContents(next, u, rest);
        n := k + 1;
        assert order[..n] == [p] + rest[..k];
        assert Places(order[..n]) == {p} + Places(rest[..k]);
        forall x | x in Places(rest[..k])
          ensures x != p && Matches(u, x)
        {
          assert x in rest && x in order;
        }
        MovedOneMore(docs, u, p, Places(rest[..k]), After(UpdateMany(next, u, rest)));
      }
    }
  }

  lemma MovedOneMore(docs: Docs, u: Update, p: Place, moved: set<Place>, after: Docs)
    requires p in docs && Matches(u, p) && p !in moved && forall x :: x in moved ==> Matches(u, x)
    requires NewPlace(u, p) == p || NewPlace(u, p) !in docs
    requires Moved(if NewPlace(u, p) == p then docs else (docs - {p})[NewPlace(u, p) := docs[p]], u, moved, after)
    ensures Moved(docs, u, {p} + moved, after)
  {
    forall x | x in moved
      ensures NewPlace(u, x) != NewPlace(u, p) && NewPlace(u, p) != x && NewPlace(u, x) != p
    {
      NewPlacesApart(u, x, p);
      NewPlacesApart(u, p, x);
    }
  }

  // ---------- the store's answer to a change ----------

  function UpdateOf(c: Change): Update {
    match c
    case NameBucket(from, to) => SetBucket(from, to)
    case NameKey(bucket, from, to) => SetKey(bucket, from, to)
    case _ => NoUpdate
  }

  /** The documents after a change; a refused insertion or update is only logged. */
  function Store(docs: Docs, c: Change, order: seq<Place>, id: nat): Docs
    requires Visits(docs, UpdateOf(c), order)
  {
    match c
    case NewObject(bucket, key, obj) =>
      var p := Place(bucket, key, obj.fileName);
      if p in docs then docs else docs[p := Document(id, obj.rest, None)]
    case NameObject(bucket, key, from, to) =>
      var p := Place(bucket, key, from);
      if p in docs then docs[p := docs[p].(name := Some(to))] else docs
    case NameBucket(_, _) => After(UpdateMany(docs, UpdateOf(c), order))
    case NameKey(_, _, _) => After(UpdateMany(docs, UpdateOf(c), order))
    case DeleteObject(bucket, key, name) => docs - {Place(bucket, key, name)}
    case DeleteKey(bucket, key) => map p | p in docs && !(p.bucket == bucket && p.key == key) :: docs[p]
    case DeleteBucket(bucket) => map p | p in docs && p.bucket != bucket :: docs[p]
    case NewKey(_, _) => docs
    case NewBucket(_) => docs
  }

  /** What every document holds after a change. */
  lemma StoredContents(docs: Docs, c: Change, order: seq<Place>, id: nat) returns (n: nat)
    requires Visits(docs, UpdateOf(c), order)
    ensures var after := Store(docs, c, order, id);
            match c
            case NewObject(bucket, key, obj) =>
              var p := Place(bucket, key, obj.fileName);
              && (forall q :: q in after <==> q in docs || q == p) && (forall q :: q in docs ==> after[q] == docs[q])
              && (p !in docs ==> after[p].id == id && after[p].rest == obj.rest && after[p].name == None)
            case NameObject(bucket, key, from, to) =>
              var p := Place(bucket, key, from);
              && after.Keys == docs.Keys
              && (forall q :: q in docs && q != p ==> after[q] == docs[q])
              && (p in docs ==> after[p].id == docs[p].id && after[p].rest == docs[p].rest && after[p].name == Some(to))
            case NameBucket(_, _) => n <= |order| && MovedFirst(docs, UpdateOf(c), order, n, after)
            case NameKey(_, _, _) => n <= |order| && MovedFirst(docs, UpdateOf(c), order, n, after)
            case DeleteObject(bucket, key, name) =>
              forall q :: (q in after <==> q in docs && q != Place(bucket, key, name)) && (q in after ==> after[q] == docs[q])
            case DeleteKey(bucket, key) =>
              forall q :: (q in after <==> q in docs && !(q.bucket == bucket && q.key == key)) && (q in after ==> after[q] == docs[q])
            case DeleteBucket(bucket) =>
              forall q :: (q in after <==> q in docs && q.bucket != bucket) && (q in after ==> after[q] == docs[q])
            case NewKey(_, _) => after == docs
            case NewBucket(_) => after == docs
  {
    n := 0;
    if c.NameBucket? || c.NameKey? {
      n := UpdatedContents(docs, UpdateOf(c), order);
    }
  }

  /** The store's collection, changed in place. */
  class LocalStorage {
    var docs: Docs
    var nextId: nat

    constructor (docs: Docs)
      ensures this.docs == docs && Valid()
    {
      this.docs := docs;
      var next: nat := 0;
      var left := docs.Keys;
      while left != {}
        invariant left <= docs.Keys
        invariant forall p :: p in docs && p !in left ==> docs[p].id < next
      {
        var p :| p in left;
        next := if docs[p].id < next then next else docs[p].id + 1;
        left := left - {p};
      }
      nextId := next;
    }

    /** Ids given out so far stay below the next one. */
    ghost predicate Valid()
      reads this
    {
      forall p :: p in docs ==> docs[p].id < nextId
    }

    method NewObject(bucket: string, key: string, obj: Object) returns (inserted: bool)
      requires Valid()
      modifies this
      ensures Valid()
      ensures docs == Store(old(docs), Change.NewObject(bucket, key, obj), [], old(nextId))
      ensures inserted <==> Place(bucket, key, obj.fileName) !in old(docs)
      ensures nextId == old(nextId) + if inserted then 1 else 0
    {
      var p := Place(bucket, key, obj.fileName);
      inserted := p !in docs;
      if inserted {
        docs := docs[p := Document(nextId, obj.rest, None)];
        nextId := nextId + 1;
      }
    }

    /** The visiting order is the database's choice. */
    method Enumerate(s: set<Place>) returns (order: seq<Place>)
      ensures forall p :: p in order <==> p in s
      ensures forall i, j :: 0 <= i < j < |order| ==> order[i] != order[j]
    {
      order := [];
      var left := s;
      while left != {}
        invariant left <= s
        invariant forall p :: p in order <==> p in s - left
        invariant forall i, j :: 0 <= i < j < |order| ==> order[i] != order[j]
      {
        var p :| p in left;
        forall i | 0 <= i < |order|
          ensures order[i] != p
        {
          assert order[i] in order;
        }
        order := order + [p];
        left := left - {p};
      }
    }

    /** One update_many call: document by document, up to the first taken place. */
    method UpdateManyInPlace(u: Update) returns (ok: bool, order: seq<Place>)
      requires Valid()
      modifies this
      ensures Valid() && nextId == old(nextId)
      ensures Visits(old(docs), u, order)
      ensures UpdateMany(old(docs), u, order) == if ok then Ok(docs) else Err(docs)
    {
      var matching := Matching(docs, u);
      order := Enumerate(matching);
      for i := 0 to |order|
        invariant Valid() && nextId == old(nextId)
        invariant Visiting(docs, u, order[i..])
        invariant UpdateMany(old(docs), u, order) == UpdateMany(docs, u, order[i..])
      {
        VisitRest(docs, u, order[i..]);
        assert order[i..][0] == order[i] && order[i..][1..] == order[i + 1..];
        var q := NewPlace(u, order[i]);
        if q != order[i] {
          if q in docs {
            return false, order;
          }
          docs := (docs - {order[i]})[q := docs[order[i]]];
        }
      }
      ok := true;
    }

    /** The store's part of a change. */
    method ChangeStorage(c: Change) returns (order: seq<Place>)
      requires Valid()
      modifies this
      ensures Valid()
      ensures Visits(old(docs), UpdateOf(c), order)
      ensures docs == Store(old(docs), c, order, old(nextId))
    {
      order := [];
      match c {
        case NewObject(bucket, key, obj) =>
          var inserted := NewObject(bucket, key, obj);
        case NameObject(bucket, key, from, to) =>
          var p := Place(bucket, key, from);
          if p in docs {
            docs := docs[p := docs[p].(name := Some(to))];
          }
        case NameBucket(from, to) =>
          var ok;
          ok, order := UpdateManyInPlace(SetBucket(from, to));
        case NameKey(bucket, from, to) =>
          var ok;
          ok, order := UpdateManyInPlace(SetKey(bucket, from, to));
        case DeleteObject(bucket, key, name) =>
          docs := docs - {Place(bucket, key, name)};
        case DeleteKey(bucket, key) =>
          docs := map p | p in docs && !(p.bucket == bucket && p.key == key) :: docs[p];
        case DeleteBucket(bucket) =>
          docs := map p | p in docs && p.bucket != bucket :: docs[p];
        case NewKey(_, _) =>
        case NewBucket(_) =>
      }
    }
  }
}
