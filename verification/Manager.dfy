/** The manager: every change goes to the document store first, then to the tree. */
module Manager {
  import Keys
  import B = BucketMap
  import S = LocalStorage
  import opened BucketMap
  import opened LocalStorage
  import opened Agreement
  import opened Paths

  class Manager {
    const root: Path
    const buckets: B.BucketMap
    const storage: S.LocalStorage

    constructor (root: Path, buckets: B.BucketMap, storage: S.LocalStorage)
      ensures this.root == root && this.buckets == buckets && this.storage == storage
    {
      this.root, this.buckets, this.storage := root, buckets, storage;
    }

    /** Handles one change.  If the tree panics, the store has already changed. */
    method HandleChange(c: Change) returns (panicked: bool, ghost message: Message)
      requires storage.Valid()
      modifies buckets, storage
      ensures storage.Valid()
      ensures message.change == c && Visits(old(storage.docs), UpdateOf(c), message.order)
      ensures storage.docs == Store(old(storage.docs), c, message.order, message.id)
      ensures panicked <==> Apply(old(buckets.tree), c).Panicked?
      ensures buckets.tree == if panicked then old(buckets.tree) else Apply(old(buckets.tree), c).tree
      ensures Agree(old(buckets.tree), old(storage.docs)) && Reported(c) && Safe(old(buckets.tree), c) && !panicked ==>
                Agree(buckets.tree, storage.docs)
    {
      ghost var t, docs, id := buckets.tree, storage.docs, storage.nextId;
      var order := storage.ChangeStorage(c);
      message := Message(c, order, id);
      panicked := buckets.Change(c);
      if Agree(t, docs) && Reported(c) && Safe(t, c) && !panicked {
        SafeStep(t, docs, c, order, id);
      }
    }

    /** Answers what a path is; None stands for the panic on a path outside the root. */
    method HandleAsk(path: Path) returns (reply: Reply)
      ensures reply == WhatIs(buckets.tree, root, path)
    {
      if path != [] && path[..|path| - 1] == root {
        return IsDir;
      }
      var bucket := FindBucket(root, path);
      if bucket.None? {
        return NoAnswer;
      }
      var key := FromBucket(bucket.value, path);
      if key.None? {
        return NoAnswer;
      }
      var entry := buckets.GetMutEntry(bucket.value, Keys.Walk(key.value));
      reply := if entry.Some? then IsDir else IsFile;
    }
  }
}
